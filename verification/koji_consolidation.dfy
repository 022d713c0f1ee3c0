/** Consolidation of a Koji build's archives into a hosted repository: creating the target and
    putting it first in the group, the per-archive download / verify / store step with its retry
    rule, the drain that resubmits retried downloads, the metadata paths to clear, and the final
    update of the group and the Koji remote. Executors run sequentially here; transfers are
    digests in maps, and what the content layer does on each attempt comes from an oracle. */
module KojiConsolidation {
  import opened Common
  import opened StoreKeys
  import opened StoreRegistry

  /** A content digest (MD5 in the source), compared only for equality. */
  type Checksum = string

  const MaxConsolidationRetries: nat := 3
  const KojiConsolidationResult: string := "koji-consolidation-result"
  const MetadataFileName: string := "maven-metadata.xml"

  /** `contentManager.retrieve` from the Koji remote: it throws, returns null, or yields a
      transfer whose digest is computed while downloading. */
  datatype RetrieveOutcome = RetrieveFailed | NotFound | Retrieved(digest: Checksum)

  /** `contentManager.store` into the target: it throws, returns null, or yields the stored
      transfer with its digest. */
  datatype StoreOutcome = StoreFailed | StoredNull | Stored(digest: Checksum)

  /** What the content layer does during one attempt: `existsFails` is an exception from the
      pre-existence check, `deleteFails` an exception from deleting a copy whose digest is wrong. */
  datatype Attempt = Attempt(existsFails: bool, retrieve: RetrieveOutcome, store: StoreOutcome, deleteFails: bool)

  /** The files the consolidation touches: the target repository's and the copies downloaded
      from the Koji remote, each with its digest. */
  datatype Contents = Contents(target: map<string, Checksum>, downloaded: map<string, Checksum>)

  datatype StepOutcome = StepOutcome(contents: Contents, retry: bool)

  /** `attemptPathConsolidation`: store a download whose digest matches the archive's and ask
      for a retry when storing fails; a download whose digest differs is deleted and retried.
      A stored copy whose digest differs is deleted without a retry, unless the deletion fails:
      then the copy stays and a retry is asked for. A failed deletion of the download keeps it. */
  function AttemptPathConsolidation(c: Contents, path: string, calculated: Checksum,
                                    expected: Checksum, st: StoreOutcome, deleteFails: bool): (r: StepOutcome)
    ensures r.retry <==> calculated != expected || st.StoreFailed? || (st.Stored? && st.digest != calculated && deleteFails)
    ensures calculated != expected ==>
      r.contents.target == c.target && r.contents.downloaded == (if deleteFails then c.downloaded else c.downloaded - {path})
    ensures calculated == expected ==> r.contents.downloaded == c.downloaded
    ensures r.contents.target - {path} == c.target - {path}
    ensures path in r.contents.target ==>
      r.contents.target[path] == expected || (path in c.target && r.contents.target[path] == c.target[path]) ||
      (r.retry && deleteFails)
    ensures calculated == expected && st.Stored? ==>
      (path in r.contents.target <==> st.digest == expected || deleteFails)
  {
    if calculated == expected then
      match st
      case StoreFailed => StepOutcome(c, true)
      case StoredNull => StepOutcome(c, false)
      case Stored(d) =>
        if calculated == d then StepOutcome(c.(target := c.target[path := d]), false)
        else if deleteFails then StepOutcome(c.(target := c.target[path := d]), true)
        else StepOutcome(c.(target := c.target - {path}), false)
    else if deleteFails then StepOutcome(c, true)
    else StepOutcome(c.(downloaded := c.downloaded - {path}), true)
  }

  /** The path is already in the target and the check for it did not fail. */
  predicate Skipped(c: Contents, path: string, a: Attempt) {
    !a.existsFails && path in c.target
  }

  /** One run of the `downloadAndConsolidate` task up to its retry decision. An existing path
      is never overwritten; the target only gains the archive's own checksum at `path`, except
      for a wrong stored copy whose deletion failed; a retry is asked for exactly when the
      retrieve failed, the download's digest differed from the archive's, storing failed, or a
      wrong stored copy could not be deleted. */
  function DownloadStep(c: Contents, path: string, expected: Checksum, a: Attempt): (r: StepOutcome)
    ensures Skipped(c, path, a) ==> r == StepOutcome(c, false)
    ensures r.contents.target - {path} == c.target - {path}
    ensures r.contents.downloaded - {path} == c.downloaded - {path}
    ensures path in r.contents.target ==>
      r.contents.target[path] == expected || (path in c.target && r.contents.target[path] == c.target[path]) ||
      (r.retry && a.deleteFails)
    ensures r.retry <==>
      (!Skipped(c, path, a) &&
       (a.retrieve.RetrieveFailed? ||
        (a.retrieve.Retrieved? &&
         (a.retrieve.digest != expected || a.store.StoreFailed? ||
          (a.store.Stored? && a.store.digest != expected && a.deleteFails)))))
    ensures !Skipped(c, path, a) && !a.retrieve.Retrieved? ==> r.contents == c
  {
    if Skipped(c, path, a) then StepOutcome(c, false)
    else
      match a.retrieve
      case RetrieveFailed => StepOutcome(c, true)
      case NotFound => StepOutcome(c, false)
      case Retrieved(d) =>
        var fetched := c.(downloaded := c.downloaded[path := d]);
        var r := AttemptPathConsolidation(fetched, path, d, expected, a.store, a.deleteFails);
        assert r.contents.downloaded - {path} == c.downloaded - {path};
        r
  }

  /** A wrong stored copy whose deletion fails stays in the target, and the retry it asks for
      then finds the path present and skips it: the copy is never replaced. */
  lemma FailedDeleteKeepsWrongCopy(c: Contents, path: string, expected: Checksum, a: Attempt, next: Attempt)
    requires !Skipped(c, path, a) && a.retrieve == Retrieved(expected)
    requires a.store.Stored? && a.store.digest != expected && a.deleteFails
    requires !next.existsFails
    ensures var s := DownloadStep(c, path, expected, a);
      s.retry && path in s.contents.target && s.contents.target[path] == a.store.digest &&
      DownloadStep(s.contents, path, expected, next) == StepOutcome(s.contents, false)
  {
  }

  /** The remote carries the marker saying consolidation failed. */
  predicate ConsolidationFailed(remote: ArtifactStore)
    requires remote.RemoteRepository?
  {
    KojiConsolidationResult in remote.metadata && remote.metadata[KojiConsolidationResult] == "false"
  }

  /** The remote with the failure marker set. */
  function MarkFailed(remote: ArtifactStore): (r: ArtifactStore)
    requires remote.RemoteRepository?
    ensures r.RemoteRepository? && ConsolidationFailed(r) && r.key == remote.key
    ensures r.metadata - {KojiConsolidationResult} == remote.metadata - {KojiConsolidationResult}
  {
    remote.(metadata := remote.metadata[KojiConsolidationResult := "false"])
  }

  /** Marking twice is marking once. */
  lemma MarkFailedTwice(remote: ArtifactStore)
    requires remote.RemoteRepository?
    ensures MarkFailed(MarkFailed(remote)) == MarkFailed(remote)
  {
    assert MarkFailed(MarkFailed(remote)).metadata == MarkFailed(remote).metadata;
  }

  /** The hosted repository that receives the consolidated content. */
  function TargetKey(targetName: string): StoreKey {
    StoreKey(MavenPkg, Hosted, targetName)
  }

  /** A freshly created consolidation target: read-only, no snapshots, releases allowed. */
  function NewTarget(targetName: string): (r: ArtifactStore)
    ensures r.HostedRepository? && WellKinded(r) && r.key == TargetKey(targetName)
    ensures IsReadonly(r) && !r.allowSnapshots
  {
    HostedRepository(TargetKey(targetName), true, false, true)
  }

  // ---------------------------------------------------------------------------
  // Metadata paths to clear

  /** An archive of the build; `path` is absent when formatting its path threw. */
  datatype Archive = Archive(path: Option<string>, checksum: Checksum)

  /** `Paths.get(path).getParent().resolve("maven-metadata.xml")`. */
  function MetadataPath(dir: string): string {
    Resolve(dir, MetadataFileName)
  }

  /** Distinct parent directories give distinct metadata paths, so the set holds one path per
      directory. */
  lemma MetadataPathInjective(d1: string, d2: string)
    requires d1 != [] && d2 != []
    requires MetadataPath(d1) == MetadataPath(d2)
    ensures d1 == d2
  {
    if d1 != "/" && d2 != "/" {
      assert |d1| == |d2|;
      assert d1 == MetadataPath(d1)[..|d1|];
      assert d2 == MetadataPath(d2)[..|d2|];
    }
  }

  /** The archives whose path could be formatted, in order. */
  function Formatted(archives: seq<Archive>): (r: seq<Archive>)
    ensures |r| <= |archives|
    ensures forall i :: 0 <= i < |r| ==> r[i].path.Some? && r[i] in archives
  {
    if archives == [] then []
    else
      var init := Formatted(archives[..|archives| - 1]);
      var last := archives[|archives| - 1];
      if last.path.Some? then init + [last] else init
  }

  /** Every formatted path has a parent directory (otherwise the background job dies on a null parent). */
  predicate AllHaveParents(archives: seq<Archive>) {
    forall i :: 0 <= i < |archives| && archives[i].path.Some? ==> ParentOf(archives[i].path.value).Some?
  }

  /** The metadata file of every formatted path's directory. */
  function MetadataPaths(archives: seq<Archive>): set<string>
    requires AllHaveParents(archives)
  {
    if archives == [] then {}
    else
      var init := archives[..|archives| - 1];
      var last := archives[|archives| - 1];
      assert AllHaveParents(init) by {
        forall i | 0 <= i < |init| && init[i].path.Some?
          ensures ParentOf(init[i].path.value).Some?
        {
          assert init[i] == archives[i];
        }
      }
      var rest := MetadataPaths(init);
      if last.path.Some? then rest + {MetadataPath(ParentOf(last.path.value).value)} else rest
  }

  /** The metadata set holds the metadata file of each formatted path's directory, and
      nothing else. */
  lemma {:induction false} MetadataPathsSpec(archives: seq<Archive>)
    requires AllHaveParents(archives)
    ensures forall i :: 0 <= i < |archives| && archives[i].path.Some? ==>
      MetadataPath(ParentOf(archives[i].path.value).value) in MetadataPaths(archives)
    ensures forall m :: m in MetadataPaths(archives) ==>
      exists i :: 0 <= i < |archives| && archives[i].path.Some? &&
        m == MetadataPath(ParentOf(archives[i].path.value).value)
  {
    if archives != [] {
      var init := archives[..|archives| - 1];
      assert forall i :: 0 <= i < |init| ==> init[i] == archives[i];
      assert AllHaveParents(init);
      MetadataPathsSpec(init);
    }
  }

  /** Every path of `t` either holds what it held in `t0` or holds a checksum that `allowed`
      pairs with that path. */
  ghost predicate TargetFrom(t: map<string, Checksum>, t0: map<string, Checksum>,
                             allowed: set<(string, Checksum)>)
  {
    forall p :: p in t ==> (p in t0 && t[p] == t0[p]) || (p, t[p]) in allowed
  }

  /** A step that changes the target only at `path`, and there only to `sum`, keeps
      `TargetFrom` when `(path, sum)` is allowed. */
  lemma TargetFromStep(t0: map<string, Checksum>, t: map<string, Checksum>, t': map<string, Checksum>,
                       allowed: set<(string, Checksum)>, path: string, sum: Checksum)
    requires TargetFrom(t, t0, allowed) && (path, sum) in allowed
    requires t' - {path} == t - {path}
    requires path in t' ==> t'[path] == sum || (path in t && t'[path] == t[path])
    ensures TargetFrom(t', t0, allowed)
  {
    forall p | p in t'
      ensures (p in t0 && t'[p] == t0[p]) || (p, t'[p]) in allowed
    {
      if p != path {
        assert p in t' - {path};
      }
    }
  }

  // ---------------------------------------------------------------------------
  // Downloads and the consolidator

  /** One archive to consolidate, with its `AtomicInteger` try counter. */
  class ConsolidationDownload {
    const path: string
    const checksum: Checksum
    var tries: nat

    constructor (path: string, checksum: Checksum)
      ensures this.path == path && this.checksum == checksum && tries == 0
    {
      this.path := path;
      this.checksum := checksum;
      tries := 0;
    }

    /** `incrementTries`: the counter after the increment. */
    method IncrementTries() returns (n: nat)
      modifies this
      ensures tries == old(tries) + 1 && n == tries
    {
      tries := tries + 1;
      n := tries;
    }
  }

  /** The group's membership list, which `getOrCreateConsolidationTarget` updates in place. */
  class MutableGroup {
    const key: StoreKey
    var constituents: seq<StoreKey>

    constructor (key: StoreKey, constituents: seq<StoreKey>)
      ensures this.key == key && this.constituents == constituents
    {
      this.key := key;
      this.constituents := constituents;
    }

    function AsStore(): (r: ArtifactStore)
      reads this
      ensures r.Group? && r.key == key && r.constituents == constituents
    {
      ArtifactStore.Group(key, constituents)
    }
  }

  /** Outstanding work left in a drain queue: the attempts each queued download may still
      make, given a snapshot of the try counters. */
  ghost function Budget(q: seq<ConsolidationDownload>, tries: map<ConsolidationDownload, nat>): nat {
    if q == [] then 0
    else
      var t := if q[0] in tries then tries[q[0]] else MaxConsolidationRetries;
      (if t < MaxConsolidationRetries then MaxConsolidationRetries - t else 0) + Budget(q[1..], tries)
  }

  /** Appending a download adds its remaining attempts; a counter outside the queue does not
      matter. */
  lemma {:induction false} BudgetAppend(q: seq<ConsolidationDownload>, tries: map<ConsolidationDownload, nat>,
                                        d: ConsolidationDownload, t: nat)
    requires d !in q
    ensures Budget(q + [d], tries[d := t]) ==
      Budget(q, tries) + (if t < MaxConsolidationRetries then MaxConsolidationRetries - t else 0)
    ensures Budget(q, tries[d := t]) == Budget(q, tries)
  {
    if q != [] {
      assert (q + [d])[1..] == q[1..] + [d];
      BudgetAppend(q[1..], tries, d, t);
    }
  }

  /** The (path, checksum) pair of every download. */
  ghost function Pairs(ds: seq<ConsolidationDownload>): set<(string, Checksum)> {
    set d | d in ds :: (d.path, d.checksum)
  }

  /** The counters as the snapshot records them. */
  ghost predicate Snapshot(downloads: seq<ConsolidationDownload>, tries: map<ConsolidationDownload, nat>)
    reads set d | d in downloads
  {
    forall d :: d in downloads ==> d in tries && d.tries == tries[d]
  }

  /** Queue entries are distinct objects. */
  ghost predicate Distinct(q: seq<ConsolidationDownload>) {
    forall i, j :: 0 <= i < j < |q| ==> q[i] != q[j]
  }

  /** A drain queue over a snapshot `tries` of the try counters: distinct downloads, each with
      a counter below the bound. */
  ghost predicate QueueOk(queue: seq<ConsolidationDownload>, tries: map<ConsolidationDownload, nat>) {
    Distinct(queue) && forall d :: d in queue ==> d in tries && tries[d] < MaxConsolidationRetries
  }

  /** The counters of downloads that have made no attempt yet. */
  ghost function Untried(ds: seq<ConsolidationDownload>): map<ConsolidationDownload, nat> {
    map d | d in ds :: 0
  }

  /** One turn keeps the queue well formed and shrinks the outstanding work: the head's counter
      becomes `t` (one more on a retry), and the head is queued again only below the bound. */
  lemma QueueStep(queue: seq<ConsolidationDownload>, tries: map<ConsolidationDownload, nat>, t: nat, resubmit: bool)
    requires QueueOk(queue, tries) && queue != []
    requires t == tries[queue[0]] || t == tries[queue[0]] + 1
    requires resubmit ==> t == tries[queue[0]] + 1 && t < MaxConsolidationRetries
    ensures var q' := if resubmit then queue[1..] + [queue[0]] else queue[1..];
      QueueOk(q', tries[queue[0] := t]) && Budget(q', tries[queue[0] := t]) < Budget(queue, tries)
  {
    var d := queue[0];
    assert d !in queue[1..];
    var q' := if resubmit then queue[1..] + [d] else queue[1..];
    assert forall e :: e in q' ==> e in queue;
    assert Distinct(q') by {
      forall i, j | 0 <= i < j < |q'| ensures q'[i] != q'[j] {
        if resubmit && j == |q'| - 1 {
          assert q'[i] in queue[1..];
        } else {
          assert q'[i] == queue[i + 1] && q'[j] == queue[j + 1];
        }
      }
    }
    BudgetAppend(queue[1..], tries, d, t);
  }

  /** How the drain ends: the contents, the remote and the try counters. */
  datatype DrainOutcome = DrainOutcome(contents: Contents, remote: ArtifactStore, tries: map<ConsolidationDownload, nat>)

  /** The state after one turn of the drain, and whether the head download's task wanted a
      retry. */
  datatype Turn = Turn(queue: seq<ConsolidationDownload>, tries: map<ConsolidationDownload, nat>,
                       contents: Contents, remote: ArtifactStore, retry: bool)

  /** One turn: the head download's task runs on what the content layer does at its current
      try count (`env(path, tries)`); a download that wants a retry has its counter
      incremented, is queued again while the counter stays below 3, and marks the remote as
      failed when it reaches 3. */
  ghost function NextTurn(queue: seq<ConsolidationDownload>, tries: map<ConsolidationDownload, nat>,
                          c: Contents, remote: ArtifactStore, env: (string, nat) -> Attempt): (n: Turn)
    requires QueueOk(queue, tries) && remote.RemoteRepository? && queue != []
    ensures QueueOk(n.queue, n.tries) && Budget(n.queue, n.tries) < Budget(queue, tries)
    ensures n.remote.RemoteRepository? && n.remote.key == remote.key
    ensures n.tries.Keys == tries.Keys
  {
    var d := queue[0];
    var s := DownloadStep(c, d.path, d.checksum, env(d.path, tries[d]));
    var t := if s.retry then tries[d] + 1 else tries[d];
    var resubmit := s.retry && t < MaxConsolidationRetries;
    QueueStep(queue, tries, t, resubmit);
    Turn(if resubmit then queue[1..] + [d] else queue[1..], tries[d := t], s.contents,
         if s.retry && !resubmit then MarkFailed(remote) else remote, s.retry)
  }

  /** The drain, turn by turn, until the queue is empty. */
  ghost function DrainSpec(queue: seq<ConsolidationDownload>, tries: map<ConsolidationDownload, nat>,
                           c: Contents, remote: ArtifactStore, env: (string, nat) -> Attempt): (r: DrainOutcome)
    requires QueueOk(queue, tries) && remote.RemoteRepository?
    ensures r.remote.RemoteRepository? && r.remote.key == remote.key
    ensures r.tries.Keys == tries.Keys
    decreases Budget(queue, tries)
  {
    if queue == [] then DrainOutcome(c, remote, tries)
    else
      var n := NextTurn(queue, tries, c, remote, env);
      DrainSpec(n.queue, n.tries, n.contents, n.remote, env)
  }

  /** What one turn does to the counters, the queue and the remote: only the head's counter
      moves, by one on a retry; the head stays queued only while its counter is below 3; the
      remote is marked when a retry is wanted at 3. */
  lemma TurnCounts(queue: seq<ConsolidationDownload>, tries: map<ConsolidationDownload, nat>,
                   c: Contents, remote: ArtifactStore, env: (string, nat) -> Attempt)
    requires QueueOk(queue, tries) && remote.RemoteRepository? && queue != []
    ensures var n := NextTurn(queue, tries, c, remote, env); var d := queue[0];
      n.tries == tries[d := n.tries[d]] && n.tries[d] == (if n.retry then tries[d] + 1 else tries[d]) &&
      (forall e :: e in n.queue <==> (e in queue && e != d) || (e == d && n.retry && n.tries[d] < MaxConsolidationRetries)) &&
      n.remote == if n.retry && n.tries[d] == MaxConsolidationRetries then MarkFailed(remote) else remote
  {
    assert queue[0] !in queue[1..];
    assert forall e :: e in queue && e != queue[0] ==> e in queue[1..];
  }

  /** Every queued download ends with between its starting count and 3 retries wanted, other
      counters stay, and the remote is marked as failed exactly when some queued download
      wanted a retry on its third attempt. */
  lemma {:induction false} DrainMarksRemote(queue: seq<ConsolidationDownload>, tries: map<ConsolidationDownload, nat>,
                                            c: Contents, remote: ArtifactStore, env: (string, nat) -> Attempt)
    requires QueueOk(queue, tries) && remote.RemoteRepository?
    ensures var r := DrainSpec(queue, tries, c, remote, env);
      (forall d :: d in tries && d !in queue ==> r.tries[d] == tries[d]) &&
      (forall d :: d in queue ==> tries[d] <= r.tries[d] <= MaxConsolidationRetries) &&
      r.remote == if exists d :: d in queue && r.tries[d] == MaxConsolidationRetries then MarkFailed(remote) else remote
    decreases Budget(queue, tries)
  {
    if queue != [] {
      var d := queue[0];
      var n := NextTurn(queue, tries, c, remote, env);
      TurnCounts(queue, tries, c, remote, env);
      DrainMarksRemote(n.queue, n.tries, n.contents, n.remote, env);
      var r := DrainSpec(queue, tries, c, remote, env);
      assert r == DrainSpec(n.queue, n.tries, n.contents, n.remote, env);
      if n.retry && n.tries[d] == MaxConsolidationRetries {
        MarkFailedTwice(remote);
        assert d in queue && r.tries[d] == MaxConsolidationRetries;
      } else if !n.retry {
        assert r.tries[d] < MaxConsolidationRetries;
      }
    }
  }

  /** An attempt that finds nothing in the way: the check works, and the download and the
      stored copy both carry the expected digest. */
  predicate Succeeds(a: Attempt, expected: Checksum) {
    !a.existsFails && a.retrieve == Retrieved(expected) && a.store == Stored(expected)
  }

  /** `queue[i]` is the first download for its path, and that path is not in the target. */
  ghost predicate FirstNewPath(queue: seq<ConsolidationDownload>, i: int, target: map<string, Checksum>) {
    0 <= i < |queue| && queue[i].path !in target && forall j :: 0 <= j < i ==> queue[j].path != queue[i].path
  }

  /** A turn whose attempt succeeds wants no retry and drops the head; the target gains the
      head's path with its checksum unless the path was there already. */
  lemma TurnSucceeds(queue: seq<ConsolidationDownload>, tries: map<ConsolidationDownload, nat>,
                     c: Contents, remote: ArtifactStore, env: (string, nat) -> Attempt)
    returns (c': Contents)
    requires QueueOk(queue, tries) && remote.RemoteRepository? && queue != []
    requires Succeeds(env(queue[0].path, tries[queue[0]]), queue[0].checksum)
    ensures QueueOk(queue[1..], tries) && Budget(queue[1..], tries) < Budget(queue, tries)
    ensures DrainSpec(queue, tries, c, remote, env) == DrainSpec(queue[1..], tries, c', remote, env)
    ensures c'.target == Land(c.target, queue[0])
  {
    assert tries[queue[0] := tries[queue[0]]] == tries;
    c' := NextTurn(queue, tries, c, remote, env).contents;
  }

  /** A download whose attempt succeeds lands in the target unless its path is there already. */
  function Land(target: map<string, Checksum>, d: ConsolidationDownload): map<string, Checksum> {
    if d.path in target then target else target[d.path := d.checksum]
  }

  /** The target after every download of `queue` has landed, in order. */
  ghost function Landed(queue: seq<ConsolidationDownload>, target: map<string, Checksum>): map<string, Checksum> {
    if queue == [] then target else Landed(queue[1..], Land(target, queue[0]))
  }

  /** Some download of `queue` is for `p`. */
  ghost predicate Queued(queue: seq<ConsolidationDownload>, p: string) {
    exists k :: 0 <= k < |queue| && queue[k].path == p
  }

  /** When every queued download's next attempt succeeds, nothing is retried, the remote stays
      unmarked, and every download lands in the target in queue order. */
  lemma {:induction false} DrainAllSucceed(queue: seq<ConsolidationDownload>, tries: map<ConsolidationDownload, nat>,
                                           c: Contents, remote: ArtifactStore, env: (string, nat) -> Attempt)
    requires QueueOk(queue, tries) && remote.RemoteRepository?
    requires forall d :: d in queue ==> Succeeds(env(d.path, tries[d]), d.checksum)
    ensures var r := DrainSpec(queue, tries, c, remote, env);
      r.remote == remote && r.tries == tries && r.contents.target == Landed(queue, c.target)
    decreases Budget(queue, tries)
  {
    if queue != [] {
      var c' := TurnSucceeds(queue, tries, c, remote, env);
      DrainAllSucceed(queue[1..], tries, c', remote, env);
    }
  }

  /** What landing leaves: the target keeps what it had and gains exactly the queued paths,
      each with the checksum of the first download for it. */
  lemma {:induction false} LandedSpec(queue: seq<ConsolidationDownload>, target: map<string, Checksum>)
    ensures forall p :: p in Landed(queue, target) <==> p in target || Queued(queue, p)
    ensures forall p :: p in target ==> Landed(queue, target)[p] == target[p]
    ensures forall i :: FirstNewPath(queue, i, target) ==>
      queue[i].path in Landed(queue, target) && Landed(queue, target)[queue[i].path] == queue[i].checksum
  {
    if queue != [] {
      var q' := queue[1..];
      var t' := Land(target, queue[0]);
      LandedSpec(q', t');
      forall p
        ensures p in Landed(queue, target) <==> p in target || Queued(queue, p)
      {
        if Queued(queue, p) {
          var k :| 0 <= k < |queue| && queue[k].path == p;
          if k > 0 {
            assert q'[k - 1].path == p;
          }
        }
        if Queued(q', p) {
          var k :| 0 <= k < |q'| && q'[k].path == p;
          assert queue[k + 1].path == p;
        }
      }
      forall i | FirstNewPath(queue, i, target)
        ensures queue[i].path in Landed(queue, target) && Landed(queue, target)[queue[i].path] == queue[i].checksum
      {
        if i > 0 {
          assert queue[i] == q'[i - 1];
          assert queue[0].path != queue[i].path;
          assert forall j :: 0 <= j < i - 1 ==> q'[j] == queue[j + 1];
          assert FirstNewPath(q', i - 1, t');
        }
      }
    }
  }

  /** When no deletion fails, the drain keeps every target path either as it was or holding
      a checksum the allowed pairs give it. */
  lemma {:induction false} DrainKeepsTargetFrom(queue: seq<ConsolidationDownload>, tries: map<ConsolidationDownload, nat>,
                                                c: Contents, remote: ArtifactStore, env: (string, nat) -> Attempt,
                                                t0: map<string, Checksum>, allowed: set<(string, Checksum)>)
    requires QueueOk(queue, tries) && remote.RemoteRepository?
    requires forall d :: d in queue ==> (d.path, d.checksum) in allowed
    requires forall p, n :: !env(p, n).deleteFails
    requires TargetFrom(c.target, t0, allowed)
    ensures TargetFrom(DrainSpec(queue, tries, c, remote, env).contents.target, t0, allowed)
    decreases Budget(queue, tries)
  {
    if queue != [] {
      var d := queue[0];
      var n := NextTurn(queue, tries, c, remote, env);
      TargetFromStep(t0, c.target, n.contents.target, allowed, d.path, d.checksum);
      TurnCounts(queue, tries, c, remote, env);
      DrainKeepsTargetFrom(n.queue, n.tries, n.contents, n.remote, env, t0, allowed);
    }
  }

  /** Which registry call of `getOrCreateConsolidationTarget` throws `IndyDataException`, if
      any: the lookup of the target, the store of a new target, or the store of the group. A
      call that throws changes nothing. */
  datatype TargetFault = NoTargetFault | LookupThrows | TargetStoreThrows | GroupStoreThrows

  /** Whether `getOrCreateConsolidationTarget` gets as far as the group membership check: the
      lookup succeeded, and the target existed or was stored. */
  predicate ReachesGroup(existed: bool, fault: TargetFault) {
    fault != LookupThrows && (existed || fault != TargetStoreThrows)
  }

  /** Which registry call of `updateStoresFromConsolidation` throws `IndyDataException`, if any:
      the first store (of the marked remote or of the group copy), or the deletion of the
      remote. A call that throws changes nothing. */
  datatype UpdateFault = NoUpdateFault | StoreThrows | DeleteThrows

  /** The consolidation run for one Koji build: the registry, the build's remote repository
      (whose metadata receives the failure marker), the content touched, and the group's own
      merged files (from which stale metadata is deleted). */
  class Consolidator {
    const registry: StoreDataManager
    var remote: ArtifactStore
    var contents: Contents
    var groupFiles: set<string>

    ghost predicate Valid()
      reads this, registry
    {
      registry.Valid() && remote.RemoteRepository? && WellKinded(remote)
    }

    constructor (registry: StoreDataManager, remote: ArtifactStore, contents: Contents, groupFiles: set<string>)
      requires registry.Valid() && remote.RemoteRepository? && WellKinded(remote)
      ensures Valid()
      ensures this.registry == registry && this.remote == remote
      ensures this.contents == contents && this.groupFiles == groupFiles
    {
      this.registry := registry;
      this.remote := remote;
      this.contents := contents;
      this.groupFiles := groupFiles;
    }

    /** `getOrCreateConsolidationTarget`: the existing target, or a new read-only one stored
        in the registry; the target joins the group at index 0 only when absent, and the group
        is stored only then and only when `storeGroup` is set. A registry call that throws
        (`fault`) is logged and ends the `try` block: a failed lookup returns null (`None`), a
        failed store of a new target returns that target unstored and leaves the group alone,
        and a failed store of the group leaves the target already inserted into it. */
    method GetOrCreateConsolidationTarget(group: MutableGroup, targetName: string, storeGroup: bool, fault: TargetFault)
      returns (repo: Option<ArtifactStore>)
      requires Valid() && group.key.storeType == StoreType.Group
      modifies registry, group
      ensures Valid()
      ensures repo.None? <==> fault == LookupThrows
      ensures repo.Some? ==> repo.value.HostedRepository? && repo.value.key == TargetKey(targetName)
      ensures repo.Some? && TargetKey(targetName) in old(registry.stores) ==>
        repo.value == old(registry.stores)[TargetKey(targetName)]
      ensures repo.Some? && TargetKey(targetName) !in old(registry.stores) ==> repo.value == NewTarget(targetName)
      ensures !ReachesGroup(TargetKey(targetName) in old(registry.stores), fault) ==>
        group.constituents == old(group.constituents) && registry.stores == old(registry.stores)
      ensures ReachesGroup(TargetKey(targetName) in old(registry.stores), fault) ==>
        group.constituents ==
          (if TargetKey(targetName) in old(group.constituents) then old(group.constituents)
           else [TargetKey(targetName)] + old(group.constituents)) &&
        registry.stores ==
          if storeGroup && TargetKey(targetName) !in old(group.constituents) && fault != GroupStoreThrows
          then old(registry.stores)[TargetKey(targetName) := repo.value][group.key := group.AsStore()]
          else old(registry.stores)[TargetKey(targetName) := repo.value]
    {
      var k := TargetKey(targetName);
      if fault == LookupThrows {
        return None;
      }
      var existing := registry.GetArtifactStore(k);
      var target: ArtifactStore;
      if existing.Some? {
        target := existing.value;
      } else {
        target := NewTarget(targetName);
        if fault == TargetStoreThrows {
          return Some(target);
        }
        var _ := registry.StoreArtifactStore(target, false);
      }
      repo := Some(target);
      if k !in group.constituents {
        group.constituents := [k] + group.constituents;
        if storeGroup && fault != GroupStoreThrows {
          var _ := registry.StoreArtifactStore(group.AsStore(), false);
        }
      }
    }

    /** The runnable `downloadAndConsolidate` builds for `cdl`: it returns `cdl` to be resubmitted
        while a retry is wanted and the incremented try count is below 3; when a retry is
        wanted past that, it marks the remote as failed. */
    method DownloadAndConsolidate(cdl: ConsolidationDownload, a: Attempt) returns (next: ConsolidationDownload?)
      requires Valid()
      modifies this`contents, this`remote, cdl
      ensures Valid()
      ensures var s := DownloadStep(old(contents), cdl.path, cdl.checksum, a);
        contents == s.contents &&
        cdl.tries == (if s.retry then old(cdl.tries) + 1 else old(cdl.tries)) &&
        next == (if s.retry && cdl.tries < MaxConsolidationRetries then cdl else null) &&
        remote == (if s.retry && cdl.tries >= MaxConsolidationRetries then MarkFailed(old(remote)) else old(remote))
    {
      if !a.existsFails && cdl.path in contents.target {
        return null;
      }
      var retry := false;
      match a.retrieve {
        case RetrieveFailed =>
          retry := true;
        case NotFound =>
        case Retrieved(d) =>
          contents := contents.(downloaded := contents.downloaded[cdl.path := d]);
          var o := AttemptPathConsolidation(contents, cdl.path, d, cdl.checksum, a.store, a.deleteFails);
          contents := o.contents;
          retry := o.retry;
      }
      if retry {
        var n := cdl.IncrementTries();
        if n < MaxConsolidationRetries {
          return cdl;
        }
        remote := MarkFailed(remote);
      }
      next := null;
    }

    /** The drain: every download is submitted once, and each one a task returns is submitted
        again, until the queue is empty. The contents, the remote and the try counters end as
        `DrainSpec` replays them from the start, each attempt meeting `env(path, tries)`. */
    method Drain(downloads: seq<ConsolidationDownload>, env: (string, nat) -> Attempt)
      requires Valid() && Distinct(downloads)
      requires forall d :: d in downloads ==> d.tries == 0
      modifies this`contents, this`remote, set d | d in downloads
      ensures Valid()
      ensures var r := DrainSpec(downloads, Untried(downloads), old(contents), old(remote), env);
        contents == r.contents && remote == r.remote && forall d :: d in downloads ==> d.tries == r.tries[d]
    {
      var queue := downloads;
      ghost var tries := Untried(downloads);
      ghost var spec := DrainSpec(downloads, tries, contents, remote, env);
      while queue != []
        invariant Valid() && QueueOk(queue, tries) && Snapshot(downloads, tries)
        invariant forall d :: d in queue ==> d in downloads
        invariant tries.Keys == Untried(downloads).Keys
        invariant DrainSpec(queue, tries, contents, remote, env) == spec
        decreases Budget(queue, tries)
      {
        queue, tries := DrainStep(downloads, queue, env, tries);
      }
    }

    /** One turn of the drain: run the head download's task and queue it again if it comes
        back. The new state is one turn of `DrainSpec`, so what remains of the drain replays
        to the same outcome, and the outstanding work shrinks. */
    method DrainStep(downloads: seq<ConsolidationDownload>, queue: seq<ConsolidationDownload>,
                     env: (string, nat) -> Attempt, ghost tries: map<ConsolidationDownload, nat>)
      returns (queue': seq<ConsolidationDownload>, ghost tries': map<ConsolidationDownload, nat>)
      requires Valid() && queue != [] && QueueOk(queue, tries) && Snapshot(downloads, tries)
      requires forall d :: d in queue ==> d in downloads
      modifies this`contents, this`remote, queue[0]
      ensures Valid() && QueueOk(queue', tries') && Snapshot(downloads, tries')
      ensures forall d :: d in queue' ==> d in downloads
      ensures tries'.Keys == tries.Keys
      ensures var d := queue[0];
        var s := DownloadStep(old(contents), d.path, d.checksum, env(d.path, tries[d]));
        contents == s.contents && d.tries == (if s.retry then tries[d] + 1 else tries[d]) &&
        tries' == tries[d := d.tries] &&
        queue' == (if s.retry && d.tries < MaxConsolidationRetries then queue[1..] + [d] else queue[1..]) &&
        remote == (if s.retry && d.tries >= MaxConsolidationRetries then MarkFailed(old(remote)) else old(remote))
      ensures DrainSpec(queue', tries', contents, remote, env) == DrainSpec(queue, tries, old(contents), old(remote), env)
      ensures Budget(queue', tries') < Budget(queue, tries)
    {
      var d := queue[0];
      var next := DownloadAndConsolidate(d, env(d.path, d.tries));
      forall e | e in downloads && e != d ensures e.tries == old(e.tries) {
      }
      QueueStep(queue, tries, d.tries, next != null);
      tries' := tries[d := d.tries];
      queue' := if next != null then queue[1..] + [d] else queue[1..];
    }

    /** `updateStoresFromConsolidation`, run under the group's lock: a remote marked as failed
        is stored and stays in the group; otherwise a copy of the group without the remote is
        stored and the remote deleted. The group object itself is not changed, and a recorded
        interrupt is raised again. Nothing is stored when the lock is not obtained. A registry
        call that throws (`fault`) is logged and skips what follows it in the `try` block. */
    method UpdateStoresFromConsolidation(interrupt: bool, lockAcquired: bool, group: MutableGroup, fault: UpdateFault)
      returns (reinterrupt: bool)
      requires Valid() && group.key.storeType == StoreType.Group
      modifies registry
      ensures Valid()
      ensures reinterrupt == interrupt
      ensures !lockAcquired || fault == StoreThrows ==> registry.stores == old(registry.stores)
      ensures lockAcquired && fault != StoreThrows && ConsolidationFailed(remote) ==>
        registry.stores == old(registry.stores)[remote.key := remote]
      ensures lockAcquired && fault != StoreThrows && !ConsolidationFailed(remote) ==>
        var stored := old(registry.stores)[group.key := ArtifactStore.Group(group.key, RemoveConstituent(group.constituents, remote.key))];
        registry.stores == if fault == DeleteThrows then stored else stored - {remote.key}
      ensures lockAcquired && fault != StoreThrows && !ConsolidationFailed(remote) ==>
        group.key in registry.stores && remote.key !in registry.stores[group.key].constituents &&
        (remote.key in registry.stores <==> fault == DeleteThrows && remote.key in old(registry.stores))
    {
      if lockAcquired && fault != StoreThrows {
        if ConsolidationFailed(remote) {
          var _ := registry.StoreArtifactStore(remote, false);
        } else {
          var copy := ArtifactStore.Group(group.key, RemoveConstituent(group.constituents, remote.key));
          var _ := registry.StoreArtifactStore(copy, false);
          if fault != DeleteThrows {
            registry.DeleteArtifactStore(remote.key);
          }
        }
      }
      reinterrupt := interrupt;
    }
  }

  /** How waiting for the drain ended. */
  datatype DrainEnd = Completed | Interrupted | TaskFailed

  /** The paths of a download list. */
  function PathsOf(ds: seq<ConsolidationDownload>): seq<string> {
    if ds == [] then [] else PathsOf(ds[..|ds| - 1]) + [ds[|ds| - 1].path]
  }

  /** The checksums of a download list. */
  function ChecksumsOf(ds: seq<ConsolidationDownload>): seq<Checksum> {
    if ds == [] then [] else ChecksumsOf(ds[..|ds| - 1]) + [ds[|ds| - 1].checksum]
  }

  /** The formatted paths of an archive list. */
  function FormattedPaths(archives: seq<Archive>): seq<string> {
    if archives == [] then []
    else
      var last := archives[|archives| - 1];
      FormattedPaths(archives[..|archives| - 1]) + if last.path.Some? then [last.path.value] else []
  }

  /** The checksums of the formatted archives. */
  function FormattedChecksums(archives: seq<Archive>): seq<Checksum> {
    if archives == [] then []
    else
      var last := archives[|archives| - 1];
      FormattedChecksums(archives[..|archives| - 1]) + if last.path.Some? then [last.checksum] else []
  }

  /** Each download's path and checksum, in order. */
  lemma {:induction false} DownloadFieldsSpec(ds: seq<ConsolidationDownload>)
    ensures |PathsOf(ds)| == |ds| && forall i :: 0 <= i < |ds| ==> PathsOf(ds)[i] == ds[i].path
    ensures |ChecksumsOf(ds)| == |ds| && forall i :: 0 <= i < |ds| ==> ChecksumsOf(ds)[i] == ds[i].checksum
  {
    if ds != [] {
      DownloadFieldsSpec(ds[..|ds| - 1]);
    }
  }

  /** The formatted paths and checksums are those of the formatted archives, in order. */
  lemma {:induction false} FormattedFieldsSpec(archives: seq<Archive>)
    ensures |FormattedPaths(archives)| == |Formatted(archives)|
    ensures forall i :: 0 <= i < |Formatted(archives)| ==> FormattedPaths(archives)[i] == Formatted(archives)[i].path.value
    ensures |FormattedChecksums(archives)| == |Formatted(archives)|
    ensures forall i :: 0 <= i < |Formatted(archives)| ==> FormattedChecksums(archives)[i] == Formatted(archives)[i].checksum
  {
    if archives != [] {
      FormattedFieldsSpec(archives[..|archives| - 1]);
    }
  }

  /** One more archive extends the formatted paths and checksums, the parent check and the
      metadata set by that archive's own contribution. */
  lemma PlanStep(archives: seq<Archive>, i: nat)
    requires i < |archives| && AllHaveParents(archives[..i])
    ensures var a := archives[i];
      FormattedPaths(archives[..i + 1]) ==
        FormattedPaths(archives[..i]) + if a.path.Some? then [a.path.value] else []
    ensures var a := archives[i];
      FormattedChecksums(archives[..i + 1]) ==
        FormattedChecksums(archives[..i]) + if a.path.Some? then [a.checksum] else []
    ensures var a := archives[i];
      AllHaveParents(archives[..i + 1]) <==> a.path.None? || ParentOf(a.path.value).Some?
    ensures var a := archives[i];
      AllHaveParents(archives[..i + 1]) ==>
        MetadataPaths(archives[..i + 1]) ==
          if a.path.Some? then MetadataPaths(archives[..i]) + {MetadataPath(ParentOf(a.path.value).value)}
          else MetadataPaths(archives[..i])
  {
    var next := archives[..i + 1];
    assert next[..i] == archives[..i];
    assert next[i] == archives[i];
    assert forall j :: 0 <= j < i ==> next[j] == archives[..i][j];
  }

  /** The body run for each archive: a download for a formatted path and, when the path has a
      parent, that directory's metadata path; `false` when the parent is missing. An archive
      whose path cannot be formatted is skipped. */
  method PlanArchive(a: Archive, downloads: seq<ConsolidationDownload>, metadata: set<string>)
    returns (ok: bool, downloads': seq<ConsolidationDownload>, metadata': set<string>)
    ensures ok <==> a.path.None? || ParentOf(a.path.value).Some?
    ensures a.path.None? ==> downloads' == downloads && metadata' == metadata
    ensures a.path.Some? ==>
      |downloads'| == |downloads| + 1 && downloads' == downloads + [downloads'[|downloads|]] &&
      var d := downloads'[|downloads|];
      fresh(d) && d !in downloads && d.tries == 0 && d.path == a.path.value && d.checksum == a.checksum
    ensures ok && a.path.Some? ==> metadata' == metadata + {MetadataPath(ParentOf(a.path.value).value)}
  {
    downloads', metadata' := downloads, metadata;
    ok := true;
    if a.path.Some? {
      var d := new ConsolidationDownload(a.path.value, a.checksum);
      downloads' := downloads + [d];
      var parent := ParentOf(a.path.value);
      if parent.None? {
        return false, downloads', metadata';
      }
      metadata' := metadata + {MetadataPath(parent.value)};
    }
  }

  /** Builds one download per formatted archive, in order, and collects the metadata path of
      each one's directory; `None` when some formatted path has no parent, which ends the background job
      before anything is downloaded. */
  method PlanDownloads(archives: seq<Archive>) returns (plan: Option<seq<ConsolidationDownload>>, metadataToClear: set<string>)
    ensures plan.Some? <==> AllHaveParents(archives)
    ensures plan.Some? ==> metadataToClear == MetadataPaths(archives)
    ensures plan.Some? ==> Distinct(plan.value)
    ensures plan.Some? ==> forall j :: 0 <= j < |plan.value| ==> fresh(plan.value[j]) && plan.value[j].tries == 0
    ensures plan.Some? ==> PathsOf(plan.value) == FormattedPaths(archives)
    ensures plan.Some? ==> ChecksumsOf(plan.value) == FormattedChecksums(archives)
  {
    var downloads: seq<ConsolidationDownload> := [];
    metadataToClear := {};
    var i := 0;
    while i < |archives|
      invariant 0 <= i <= |archives|
      invariant AllHaveParents(archives[..i])
      invariant metadataToClear == MetadataPaths(archives[..i])
      invariant PathsOf(downloads) == FormattedPaths(archives[..i])
      invariant ChecksumsOf(downloads) == FormattedChecksums(archives[..i])
      invariant Distinct(downloads)
      invariant forall j :: 0 <= j < |downloads| ==> fresh(downloads[j]) && downloads[j].tries == 0
    {
      PlanStep(archives, i);
      var ok, downloads', metadata' := PlanArchive(archives[i], downloads, metadataToClear);
      if !ok {
        assert !AllHaveParents(archives) by {
          assert archives[i].path.Some? && ParentOf(archives[i].path.value).None?;
        }
        return None, metadataToClear;
      }
      if archives[i].path.Some? {
        DownloadsSnoc(downloads, downloads');
        assert forall j :: 0 <= j < |downloads| ==> downloads'[j] == downloads[j];
      }
      downloads, metadataToClear := downloads', metadata';
      i := i + 1;
    }
    assert archives[..i] == archives;
    plan := Some(downloads);
  }

  /** A list extended by one download: paths and checksums grow by its own, and it stays
      free of repeats when the new one is not already there. */
  lemma DownloadsSnoc(ds: seq<ConsolidationDownload>, ds': seq<ConsolidationDownload>)
    requires |ds'| == |ds| + 1 && ds' == ds + [ds'[|ds|]]
    ensures PathsOf(ds') == PathsOf(ds) + [ds'[|ds|].path]
    ensures ChecksumsOf(ds') == ChecksumsOf(ds) + [ds'[|ds|].checksum]
    ensures Distinct(ds) && ds'[|ds|] !in ds ==> Distinct(ds')
  {
    if Distinct(ds) && ds'[|ds|] !in ds {
      forall i, j | 0 <= i < j < |ds'|
        ensures ds'[i] != ds'[j]
      {
        if j < |ds| {
          assert ds'[j] == ds[j];
        }
      }
    }
  }

  /** The background task of `startConsolidation` for a target and group: plan, drain, delete
      the collected metadata files from the target and the group unless the wait ended early,
      then update the stores from the remote as the drain left it. A plan that dies on a path
      without parent changes nothing. */
  method StartConsolidation(c: Consolidator, group: MutableGroup, archives: seq<Archive>,
                            env: (string, nat) -> Attempt, drainEnd: DrainEnd, lockAcquired: bool,
                            fault: UpdateFault)
    returns (reinterrupt: bool, ghost plan: seq<ConsolidationDownload>)
    requires c.Valid() && group.key.storeType == StoreType.Group
    modifies c, c.registry
    ensures c.Valid()
    ensures !AllHaveParents(archives) ==>
      !reinterrupt && c.contents == old(c.contents) && c.remote == old(c.remote) &&
      c.groupFiles == old(c.groupFiles) && c.registry.stores == old(c.registry.stores)
    ensures AllHaveParents(archives) ==>
      Distinct(plan) && PathsOf(plan) == FormattedPaths(archives) && ChecksumsOf(plan) == FormattedChecksums(archives)
    ensures AllHaveParents(archives) ==> reinterrupt == (drainEnd == Interrupted)
    ensures AllHaveParents(archives) && Distinct(plan) ==>
      var r := DrainSpec(plan, Untried(plan), old(c.contents), old(c.remote), env);
      c.remote == r.remote && c.contents.downloaded == r.contents.downloaded &&
      c.contents.target == (if drainEnd == Completed then r.contents.target - MetadataPaths(archives) else r.contents.target) &&
      c.groupFiles == (if drainEnd == Completed then old(c.groupFiles) - MetadataPaths(archives) else old(c.groupFiles))
    ensures AllHaveParents(archives) && (!lockAcquired || fault == StoreThrows) ==>
      c.registry.stores == old(c.registry.stores)
    ensures AllHaveParents(archives) && lockAcquired && fault != StoreThrows && ConsolidationFailed(c.remote) ==>
      c.registry.stores == old(c.registry.stores)[c.remote.key := c.remote]
    ensures AllHaveParents(archives) && lockAcquired && fault != StoreThrows && !ConsolidationFailed(c.remote) ==>
      var stored := old(c.registry.stores)[group.key := ArtifactStore.Group(group.key, RemoveConstituent(group.constituents, c.remote.key))];
      c.registry.stores == if fault == DeleteThrows then stored else stored - {c.remote.key}
  {
    var planned, metadataToClear := PlanDownloads(archives);
    if planned.None? {
      return false, [];
    }
    plan := planned.value;
    c.Drain(planned.value, env);
    if drainEnd == Completed {
      c.contents := c.contents.(target := c.contents.target - metadataToClear);
      c.groupFiles := c.groupFiles - metadataToClear;
    }
    reinterrupt := c.UpdateStoresFromConsolidation(drainEnd == Interrupted, lockAcquired, group, fault);
  }
}
