/**
  The memory budget of a copy profile: chunk, workers and burst, composed from
  both sides and capped so that the buffers together stay within it. Sizes are
  machine words; the program's saturating steps are kept.
*/
module Budget {
  import opened Bytes

  const USIZE_MAX: nat := 0xFFFF_FFFF_FFFF_FFFF
  const MIN_CHUNK: nat := 64 * 1024
  const MAX_CHUNK: nat := 64 * 1024 * 1024
  const MIN_BURST: nat := 1024 * 1024
  const MAX_BURST: nat := 1024 * 1024 * 1024
  const DEFAULT_BURST: nat := 256 * 1024 * 1024
  const DEFAULT_LARGE: nat := 16 * 1024 * 1024
  const PIPELINE_BUFFERS: nat := 2
  const LOCAL_PIPELINE_BUFFERS: nat := 3
  const MAX_WORKERS: nat := 256

  function SatMul(a: nat, b: nat): nat { if a * b >= USIZE_MAX then USIZE_MAX else a * b }

  function SatSub(a: nat, b: nat): nat { if a >= b then a - b else 0 }

  datatype Tuning = Tuning(threads: Option<nat>, chunk: Option<nat>, memory: Option<nat>, large: Option<nat>,
                           burst: Option<nat>)

  datatype Side = Side(chunk: nat, workers: nat)
  {
    predicate Valid() { MIN_CHUNK <= chunk <= MAX_CHUNK && 1 <= workers <= MAX_WORKERS }
  }

  /** The machine's facts the composition depends on. */
  datatype Topology = Topology(source: Side, destination: Side, sourceLeads: bool, sameSpindle: bool, redirector: bool)
  {
    predicate Valid() { source.Valid() && destination.Valid() }

    predicate Local() { !sameSpindle && !redirector }

    function CoordinatorBuffers(): nat { if redirector then PIPELINE_BUFFERS else LOCAL_PIPELINE_BUFFERS }
  }

  datatype Profile = Profile(chunk: nat, workers: nat, burst: nat)

  datatype Selection = Rejected(reason: string) | Selected(profile: Profile)

  predicate TuningOk(t: Tuning) {
    && (t.threads.Some? ==> 1 <= t.threads.value <= MAX_WORKERS)
    && (t.chunk.Some? ==> MIN_CHUNK <= t.chunk.value <= MAX_CHUNK)
    && t.memory != Some(0) && t.large != Some(0)
    && (t.burst.Some? ==> MIN_BURST <= t.burst.value <= MAX_BURST)
  }

  function Large(t: Tuning): nat { if t.large.Some? then t.large.value else DEFAULT_LARGE }

  /** What a worker's share of the budget is reckoned as. */
  function PerWorker(topology: Topology, large: nat, chunk: nat): nat {
    if topology.redirector then Max(large, SatMul(chunk, PIPELINE_BUFFERS)) else large
  }

  // ---- what is selected

  /** The chunk without a budget. */
  function Wanted(topology: Topology, tune: Tuning): nat {
    if tune.chunk.Some? then tune.chunk.value else Min(topology.source.chunk, topology.destination.chunk)
  }

  /** The workers without a budget. */
  function Available(topology: Topology, tune: Tuning): nat {
    if tune.threads.Some? then tune.threads.value
    else if topology.sourceLeads then Min(topology.source.workers, topology.destination.workers)
    else topology.destination.workers
  }

  function ChunkOf(topology: Topology, tune: Tuning): nat {
    if tune.memory.None? then Wanted(topology, tune)
    else if topology.sameSpindle then Min(Wanted(topology, tune), tune.memory.value)
    else Min(Wanted(topology, tune), SatSub(tune.memory.value, Large(tune)) / topology.CoordinatorBuffers())
  }

  function WorkersOf(topology: Topology, tune: Tuning): nat
    requires TuningOk(tune)
  {
    var chunk := ChunkOf(topology, tune);
    if topology.sameSpindle then 1
    else if tune.memory.None? then Available(topology, tune)
    else
      var left := SatSub(tune.memory.value, topology.CoordinatorBuffers() * chunk);
      Min(Available(topology, tune), Max(1, Min(left / PerWorker(topology, Large(tune), chunk), MAX_WORKERS)))
  }

  function BurstOf(topology: Topology, tune: Tuning): nat {
    var burst := if tune.burst.Some? then tune.burst.value else DEFAULT_BURST;
    if !topology.sameSpindle then 0 else if tune.memory.Some? then Min(burst, tune.memory.value) else burst
  }

  function ProfileOf(topology: Topology, tune: Tuning): Profile
    requires TuningOk(tune)
  {
    Profile(ChunkOf(topology, tune), WorkersOf(topology, tune), BurstOf(topology, tune))
  }

  /** The budget holds a whole file beside the coordinator's smallest chunks, and
      one worker beside the chunks it gets. */
  predicate BudgetSuffices(topology: Topology, tune: Tuning) {
    tune.memory.Some? ==>
      var chunk := ChunkOf(topology, tune);
      && Large(tune) + topology.CoordinatorBuffers() * MIN_CHUNK <= tune.memory.value
      && topology.CoordinatorBuffers() * chunk + PerWorker(topology, Large(tune), chunk) <= tune.memory.value
  }

  predicate Accepts(topology: Topology, tune: Tuning) {
    && TuningOk(tune)
    && if topology.sameSpindle then
         && (tune.threads.Some? ==> tune.threads.value == 1)
         && Max(ChunkOf(topology, tune), Large(tune)) <= BurstOf(topology, tune)
       else BudgetSuffices(topology, tune)
  }

  lemma DivWithin(n: nat, d: nat)
    requires d > 0
    ensures n / d * d <= n
    ensures n >= d ==> n / d >= 1
  {
    assert n == d * (n / d) + n % d;
  }

  lemma FewerFit(a: nat, b: nat, d: nat)
    requires a <= b
    ensures a * d <= b * d
  {
  }

  /** The chunk within the budget: the largest that leaves room for one whole
      file beside the coordinator's buffers. */
  method CapChunk(topology: Topology, wanted: nat, memory: nat, large: nat) returns (chunk: Option<nat>)
    requires large > 0
    ensures chunk.Some? ==> chunk.value <= wanted && (wanted > 0 && memory > 0 ==> chunk.value > 0)
    ensures chunk.Some? && !topology.sameSpindle ==>
              && topology.CoordinatorBuffers() * chunk.value + large <= memory
              && (chunk.value == wanted || topology.CoordinatorBuffers() * (chunk.value + 1) + large > memory)
              && chunk.value == Min(wanted, SatSub(memory, large) / topology.CoordinatorBuffers())
    ensures topology.sameSpindle ==> chunk == Some(Min(wanted, memory))
    ensures !topology.sameSpindle ==>
              (chunk.Some? <==> memory >= large + topology.CoordinatorBuffers() * MIN_CHUNK)
  {
    if topology.sameSpindle {
      return Some(Min(wanted, memory));
    }
    if memory < large {
      return None;
    }
    var buffers := topology.CoordinatorBuffers();
    var share := (memory - large) / buffers;
    DivWithin(memory - large, buffers);
    if share < MIN_CHUNK {
      return None;
    }
    chunk := Some(Min(wanted, share));
    FewerFit(chunk.value, share, buffers);
  }

  /** The most workers within what the coordinator's buffers leave. */
  method CapWorkers(topology: Topology, workers: nat, chunk: nat, memory: nat, large: nat) returns (capped: Option<nat>)
    requires large > 0 && workers > 0 && memory <= USIZE_MAX
    requires topology.CoordinatorBuffers() * chunk <= memory
    ensures capped.Some? ==>
              var perWorker := PerWorker(topology, large, chunk);
              var left := SatSub(memory, topology.CoordinatorBuffers() * chunk);
              && 1 <= capped.value <= workers
              && topology.CoordinatorBuffers() * chunk + capped.value * perWorker <= memory
              && (|| capped.value == workers || capped.value == MAX_WORKERS
                  || topology.CoordinatorBuffers() * chunk + (capped.value + 1) * perWorker > memory)
              && capped.value == Min(workers, Max(1, Min(left / perWorker, MAX_WORKERS)))
    ensures capped.Some? <==> topology.CoordinatorBuffers() * chunk + PerWorker(topology, large, chunk) <= memory
  {
    var coordinatorBytes := SatMul(chunk, topology.CoordinatorBuffers());
    var perWorker := PerWorker(topology, large, chunk);
    var workerBytes := SatSub(memory, coordinatorBytes);
    if workerBytes < perWorker {
      return None;
    }
    var budgeted: nat := Max(1, Min(workerBytes / perWorker, MAX_WORKERS));
    DivWithin(workerBytes, perWorker);
    capped := Some(Min(workers, budgeted));
    FewerFit(capped.value, workerBytes / perWorker, perWorker);
    if capped.value == workerBytes / perWorker {
      OneMoreIsTooMany(workerBytes, perWorker);
    }
  }

  lemma OneMoreIsTooMany(n: nat, d: nat)
    requires d > 0
    ensures (n / d + 1) * d > n
  {
    assert n == d * (n / d) + n % d;
  }

  /** Composes the profile: exactly when the tuning and the budget allow it, and
      exactly with these numbers. */
  method SelectCopyProfile(topology: Topology, tune: Tuning) returns (r: Selection)
    requires topology.Valid() && (tune.memory.Some? ==> tune.memory.value <= USIZE_MAX)
    ensures r.Selected? <==> Accepts(topology, tune)
    ensures r.Selected? ==> r.profile == ProfileOf(topology, tune)
  {
    if !TuningOk(tune) {
      return Rejected("tuning value out of range");
    }
    var source, destination := topology.source, topology.destination;
    if tune.threads.Some? {
      source, destination := source.(workers := tune.threads.value), destination.(workers := tune.threads.value);
    }
    var large := Large(tune);
    var chunk: nat := if tune.chunk.Some? then tune.chunk.value else Min(source.chunk, destination.chunk);
    if tune.memory.Some? {
      var capped := CapChunk(topology, chunk, tune.memory.value, large);
      if capped.None? {
        return Rejected("memory budget cannot hold a file and the minimum chunks");
      }
      chunk := capped.value;
    }
    if topology.sameSpindle {
      r := SelectPhased(topology, tune, chunk);
      return;
    }
    var workers: nat := if topology.sourceLeads then Min(source.workers, destination.workers) else destination.workers;
    r := SelectShared(topology, tune, chunk, workers);
  }

  /** The coordinator and as many workers as the budget holds. */
  method SelectShared(topology: Topology, tune: Tuning, chunk: nat, workers: nat) returns (r: Selection)
    requires !topology.sameSpindle && TuningOk(tune) && chunk == ChunkOf(topology, tune)
    requires workers == Available(topology, tune) > 0 && (tune.memory.Some? ==> tune.memory.value <= USIZE_MAX)
    requires tune.memory.Some? ==>
               && Large(tune) + topology.CoordinatorBuffers() * MIN_CHUNK <= tune.memory.value
               && topology.CoordinatorBuffers() * chunk <= tune.memory.value
    ensures r.Selected? <==> Accepts(topology, tune)
    ensures r.Selected? ==> r.profile == ProfileOf(topology, tune)
  {
    if tune.memory.None? {
      return Selected(Profile(chunk, workers, 0));
    }
    var capped := CapWorkers(topology, workers, chunk, tune.memory.value, Large(tune));
    if capped.None? {
      return Rejected("memory budget cannot hold the coordinator's chunks and one worker");
    }
    return Selected(Profile(chunk, capped.value, 0));
  }

  /** One phased worker, whose burst must hold a chunk and a whole file. */
  method SelectPhased(topology: Topology, tune: Tuning, chunk: nat) returns (r: Selection)
    requires topology.sameSpindle && TuningOk(tune) && chunk == ChunkOf(topology, tune)
    ensures r.Selected? <==> Accepts(topology, tune)
    ensures r.Selected? ==> r.profile == ProfileOf(topology, tune)
  {
    if tune.threads.Some? && tune.threads.value != 1 {
      return Rejected("the phased scheduler has one worker");
    }
    var burst: nat := if tune.burst.Some? then tune.burst.value else DEFAULT_BURST;
    if tune.memory.Some? {
      burst := Min(burst, tune.memory.value);
    }
    if burst < Max(chunk, Large(tune)) {
      return Rejected("burst is smaller than a chunk or a whole file");
    }
    return Selected(Profile(chunk, 1, burst));
  }

  // ---- what an accepted profile keeps

  /** With a budget, what the coordinator and the workers are reckoned to hold
      stays within it, and every chunk is at least the smallest. */
  lemma AcceptedFits(topology: Topology, tune: Tuning)
    requires topology.Valid() && Accepts(topology, tune)
    ensures var p := ProfileOf(topology, tune);
      && p.workers >= 1
      && (topology.sameSpindle ==> p.workers == 1 && Max(p.chunk, Large(tune)) <= p.burst)
      && (topology.sameSpindle && tune.memory.Some? ==> p.burst <= tune.memory.value)
      && (!topology.sameSpindle ==> MIN_CHUNK <= p.chunk <= MAX_CHUNK)
      && (!topology.sameSpindle && tune.memory.Some? ==>
            topology.CoordinatorBuffers() * p.chunk + p.workers * PerWorker(topology, Large(tune), p.chunk)
            <= tune.memory.value)
  {
    if !topology.sameSpindle && tune.memory.Some? {
      var p, buffers := ProfileOf(topology, tune), topology.CoordinatorBuffers();
      var perWorker := PerWorker(topology, Large(tune), p.chunk);
      var left := SatSub(tune.memory.value, buffers * p.chunk);
      ShareIsEnough(tune.memory.value - Large(tune), buffers);
      DivWithin(left, perWorker);
      FewerFit(p.workers, left / perWorker, perWorker);
    }
  }

  lemma ShareIsEnough(n: nat, buffers: nat)
    requires buffers > 0 && n >= buffers * MIN_CHUNK
    ensures n / buffers >= MIN_CHUNK
  {
    assert n == buffers * (n / buffers) + n % buffers;
    if n / buffers < MIN_CHUNK {
      FewerFit(n / buffers + 1, MIN_CHUNK, buffers);
    }
  }

  // ---- what workers really hold

  /** A worker on a local disk holds a whole small file; if that file has streams
      or attributes to keep, it runs the streaming pipeline instead. */
  function LocalWorkerPeak(large: nat, chunk: nat): nat { Max(large, LOCAL_PIPELINE_BUFFERS * chunk) }

  /** All buffers of a local copy, every worker at its peak. */
  function LocalPeak(p: Profile, large: nat): nat {
    LOCAL_PIPELINE_BUFFERS * p.chunk + p.workers * LocalWorkerPeak(large, p.chunk)
  }

  /** A local profile that is accepted under a budget, with these two numbers. */
  predicate LocalChoice(topology: Topology, tune: Tuning, large: nat, chunk: nat) {
    && topology.Valid() && topology.Local() && Accepts(topology, tune)
    && tune.memory.Some? && tune.memory.value <= USIZE_MAX && Large(tune) == large
    && ChunkOf(topology, tune) == chunk
  }

  predicate StaysWithin(topology: Topology, tune: Tuning)
    requires TuningOk(tune)
  {
    tune.memory.Some? ==> LocalPeak(ProfileOf(topology, tune), Large(tune)) <= tune.memory.value
  }

  /** The budget bounds what is really held, for every accepted local profile
      with this threshold and this chunk, exactly when three chunks are no more
      than the large threshold. */
  lemma BudgetHoldsExactly(large: nat, chunk: nat)
    requires large > 0 && MIN_CHUNK <= chunk <= MAX_CHUNK
    ensures (forall topology, tune :: LocalChoice(topology, tune, large, chunk) ==> StaysWithin(topology, tune))
            <==> LOCAL_PIPELINE_BUFFERS * chunk <= large
  {
    if LOCAL_PIPELINE_BUFFERS * chunk <= large {
      forall topology, tune | LocalChoice(topology, tune, large, chunk) ensures StaysWithin(topology, tune) {
        AcceptedFits(topology, tune);
      }
    } else {
      var topology, tune := Overrun(large, chunk);
    }
  }

  /** Otherwise there is an accepted profile that exceeds its budget: one with
      just enough memory for the chunks and one worker. */
  lemma Overrun(large: nat, chunk: nat) returns (topology: Topology, tune: Tuning)
    requires 0 < large < LOCAL_PIPELINE_BUFFERS * chunk && MIN_CHUNK <= chunk <= MAX_CHUNK
    ensures LocalChoice(topology, tune, large, chunk) && !StaysWithin(topology, tune)
  {
    topology := Topology(Side(chunk, 1), Side(chunk, 1), false, false, false);
    var memory := LOCAL_PIPELINE_BUFFERS * chunk + large;
    tune := Tuning(None, None, Some(memory), Some(large), None);
    assert SatSub(memory, large) / LOCAL_PIPELINE_BUFFERS == chunk;
    assert ChunkOf(topology, tune) == chunk;
    AcceptedFits(topology, tune);
  }

  /** The built-in thresholds and the solid-state chunk are such a case. */
  lemma DefaultsOverrun() returns (topology: Topology, tune: Tuning)
    ensures LocalChoice(topology, tune, DEFAULT_LARGE, 16 * 1024 * 1024) && !StaysWithin(topology, tune)
  {
    topology, tune := Overrun(DEFAULT_LARGE, 16 * 1024 * 1024);
  }
}
