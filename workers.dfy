/** The job queue, one `HostWorker` draining it (the thread pool seen as a
    single sequential worker), and the loop in `main` that names each host
    mapping in place and enqueues it. */
module Workers {
  import opened Common
  import opened PyValues
  import opened Jobs
  import opened HostBuilder

  /** One host's mapping as the YAML loader returns it: a dict object that
      `main` updates in place and the queue holds by reference. Two keys of
      the hosts map may share one mapping (a YAML alias). */
  class HostMapping {
    var fields: Job

    constructor (fields: Job)
      ensures this.fields == fields
    {
      this.fields := fields;
    }
  }

  /** The mapping objects of a hosts map, in its order. */
  function Mappings(hosts: seq<(Value, HostMapping)>): (r: seq<HostMapping>)
    ensures |r| == |hosts| && forall i :: 0 <= i < |hosts| ==> r[i] == hosts[i].1
  {
    seq(|hosts|, i requires 0 <= i < |hosts| => hosts[i].1)
  }

  /** The current contents of some mappings. */
  function Fields(ms: seq<HostMapping>): (r: seq<Job>)
    reads ms
    ensures |r| == |ms| && forall i :: 0 <= i < |ms| ==> r[i] == ms[i].fields
  {
    seq(|ms|, i reads ms requires 0 <= i < |ms| => ms[i].fields)
  }

  /** The shared `Queue.Queue`: `put` at the back, `get_nowait` at the front. */
  class JobQueue {
    var items: seq<HostMapping>

    constructor ()
      ensures items == []
    {
      items := [];
    }

    /** `queue.put(job)`. */
    method Put(host: HostMapping)
      modifies this
      ensures items == old(items) + [host]
    {
      items := items + [host];
    }

    /** `queue.get_nowait()`: the front mapping, or None where it raises
        `Queue.Empty`. */
    method TryTake() returns (r: Option<HostMapping>)
      modifies this
      ensures old(items) == [] ==> r == None && items == []
      ensures old(items) != [] ==> r == Some(old(items)[0]) && items == old(items)[1..]
    {
      if items == [] {
        r := None;
      } else {
        r := Some(items[0]);
        items := items[1..];
      }
    }
  }

  /** How many of `queued` jobs one run hands to `create_host`: none when the
      stop flag is already set, else all of them, or as many as were done
      when the interrupt arrived. */
  function Drained(stopped: bool, signalAfter: Option<nat>, queued: nat): (n: nat)
    ensures n <= queued
  {
    if stopped then 0
    else
      match signalAfter
      case Some(s) => if s < queued then s else queued
      case None => queued
  }

  /** `HostWorker`: a worker thread with its stop flag (`stophandler`). The
      ghost fields record the mappings it handed to `create_host` and what
      each call returned or raised, which the source only logs. */
  class HostWorker {
    const queue: JobQueue
    const cfg: map<string, string>
    const client: Client
    var stopRequested: bool
    ghost var processed: seq<HostMapping>
    ghost var reports: seq<Result<Outcome, Exception>>

    constructor (queue: JobQueue, cfg: map<string, string>, client: Client)
      ensures this.queue == queue && this.cfg == cfg && this.client == client
      ensures !stopRequested && processed == [] && reports == []
    {
      this.queue := queue;
      this.cfg := cfg;
      this.client := client;
      stopRequested := false;
      processed := [];
      reports := [];
    }

    /** `terminate()`: sets the stop flag and nothing else. */
    method Terminate()
      modifies this`stopRequested
      ensures stopRequested
    {
      stopRequested := true;
    }

    /** One pass of the `run()` loop: take the front mapping, or report an
        empty queue, and hand what was taken to `create_host`, recording its
        outcome or the exception that is logged instead. */
    method ProcessNext() returns (took: bool)
      modifies this, queue
      ensures stopRequested == old(stopRequested)
      ensures took <==> old(queue.items) != []
      ensures !took ==> queue.items == [] && processed == old(processed) && reports == old(reports)
      ensures took ==>
        && queue.items == old(queue.items)[1..]
        && processed == old(processed) + [old(queue.items)[0]]
        && reports == old(reports) + [CreateHostSpec(cfg, client, old(queue.items)[0].fields)]
    {
      var next := queue.TryTake();
      if next.None? {
        return false;
      }
      var report := CreateHost(cfg, client, next.value.fields);
      processed := processed + [next.value];
      reports := reports + [report];
      return true;
    }

    /** `run()`: while the stop flag is clear, take the front job or stop on
        an empty queue, and call `create_host` on it; an exception is logged
        and the loop goes on. `signalAfter` is when the interrupt handler
        calls `terminate()`: after that many jobs of this run, if the run
        gets that far (the flag is then seen before the next take). */
    method Run(signalAfter: Option<nat>)
      modifies this, queue
      ensures var n := Drained(old(stopRequested), signalAfter, |old(queue.items)|);
        && queue.items == old(queue.items)[n..]
        && processed == old(processed) + old(queue.items)[..n]
        && |reports| == |old(reports)| + n && reports[..|old(reports)|] == old(reports)
        && forall k :: 0 <= k < n ==>
             reports[|old(reports)| + k] == CreateHostSpec(cfg, client, old(queue.items)[k].fields)
      ensures old(stopRequested) ==> queue.items == old(queue.items) && processed == old(processed)
      ensures old(queue.items) == [] ==> processed == old(processed) && reports == old(reports)
      ensures !old(stopRequested) && signalAfter.None? ==>
        queue.items == [] && processed == old(processed) + old(queue.items)
      ensures stopRequested <==>
        old(stopRequested) || (signalAfter.Some? && signalAfter.value <= |old(queue.items)|)
    {
      ghost var queued := queue.items;
      var done := 0;
      if signalAfter == Some(0) {
        Terminate();
      }
      while !stopRequested
        invariant 0 <= done <= |queued|
        invariant queue.items == queued[done..]
        invariant processed == old(processed) + queued[..done]
        invariant |reports| == |old(reports)| + done && reports[..|old(reports)|] == old(reports)
        invariant forall k :: 0 <= k < done ==>
          reports[|old(reports)| + k] == CreateHostSpec(cfg, client, queued[k].fields)
        invariant old(stopRequested) ==> done == 0 && stopRequested
        invariant !old(stopRequested) && signalAfter.Some? ==>
          done <= signalAfter.value && (stopRequested <==> done == signalAfter.value)
        invariant !old(stopRequested) && signalAfter.None? ==> !stopRequested
        decreases |queue.items|
      {
        var took := ProcessNext();
        if !took {
          break;
        }
        assert queued[..done + 1] == queued[..done] + [queued[done]];
        done := done + 1;
        if signalAfter == Some(done) {
          Terminate();
        }
      }
    }
  }

  /** The key a mapping is last named after by the naming loop over `hosts`,
      if the loop reaches it. */
  ghost function NameOf(hosts: seq<(Value, HostMapping)>, m: HostMapping): Option<Value>
  {
    if hosts == [] then None
    else if hosts[|hosts| - 1].1 == m then Some(hosts[|hosts| - 1].0)
    else NameOf(hosts[..|hosts| - 1], m)
  }

  /** A mapping holding `job`, named after `name` if it was named. */
  function Renamed(job: Job, name: Option<Value>): Job
  {
    match name
    case None => job
    case Some(key) => SetField(job, "name", key)
  }

  /** Position `l` holds the last key of `hosts` that shares mapping `m`. */
  predicate LastKeyOf(hosts: seq<(Value, HostMapping)>, m: HostMapping, l: int)
  {
    0 <= l < |hosts| && hosts[l].1 == m && forall j :: l < j < |hosts| ==> hosts[j].1 != m
  }

  /** A mapping reached by the loop is named after the last key that shares
      it; one it never reaches keeps no name from it. */
  lemma {:induction false} NameOfLastKey(hosts: seq<(Value, HostMapping)>, m: HostMapping)
    ensures NameOf(hosts, m).None? <==> forall i :: 0 <= i < |hosts| ==> hosts[i].1 != m
    ensures NameOf(hosts, m).Some? ==>
      exists l :: LastKeyOf(hosts, m, l) && NameOf(hosts, m).value == hosts[l].0
  {
    if hosts != [] {
      var n := |hosts| - 1;
      var p := hosts[..n];
      NameOfLastKey(p, m);
      assert forall i :: 0 <= i < |p| ==> p[i] == hosts[i];
      if hosts[n].1 == m {
        assert LastKeyOf(hosts, m, n);
      } else if NameOf(p, m).Some? {
        var l :| LastKeyOf(p, m, l) && NameOf(p, m).value == p[l].0;
        assert LastKeyOf(hosts, m, l);
      }
    }
  }

  /** Host mappings that no two keys share. */
  predicate Unshared(hosts: seq<(Value, HostMapping)>)
  {
    forall i, j :: 0 <= i < j < |hosts| ==> hosts[i].1 != hosts[j].1
  }

  /** With no mapping shared, every host is named after its own key: its
      `name` field holds the key and every other field is as it was. */
  lemma UnsharedNamedByOwnKey(hosts: seq<(Value, HostMapping)>, i: int, job: Job)
    requires Unshared(hosts) && 0 <= i < |hosts|
    ensures NameOf(hosts, hosts[i].1) == Some(hosts[i].0)
    ensures Lookup(Renamed(job, NameOf(hosts, hosts[i].1)), "name") == Some(hosts[i].0)
    ensures forall k :: k != "name" ==>
      Lookup(Renamed(job, NameOf(hosts, hosts[i].1)), k) == Lookup(job, k)
  {
    NameOfLastKey(hosts, hosts[i].1);
    SetFieldLookup(job, "name", hosts[i].0);
  }

  /** A mapping shared by two keys (distinct, as keys of a map are) is
      named after a later one of the two, so the earlier host is never named
      after its own key, and both queue entries are the same mapping. */
  lemma SharedMappingMisnamed(hosts: seq<(Value, HostMapping)>, i: int, j: int)
    requires 0 <= i < j < |hosts| && hosts[i].1 == hosts[j].1
    requires forall a, b :: 0 <= a < b < |hosts| ==> hosts[a].0 != hosts[b].0
    ensures NameOf(hosts, hosts[i].1).Some?
    ensures NameOf(hosts, hosts[i].1) != Some(hosts[i].0)
  {
    NameOfLastKey(hosts, hosts[i].1);
  }

  /** One more pass of the naming loop names its own mapping after its key
      and leaves every other mapping's name as it was. */
  lemma NameOfStep(hosts: seq<(Value, HostMapping)>, n: int, m: HostMapping)
    requires 0 <= n < |hosts|
    ensures NameOf(hosts[..n + 1], m) ==
      if hosts[n].1 == m then Some(hosts[n].0) else NameOf(hosts[..n], m)
  {
    assert hosts[..n + 1][..n] == hosts[..n];
  }

  /** `cur` holds the contents of the mappings after the naming loop has
      passed the first `n` keys, when they held `start` before it. */
  ghost predicate NamedUpTo(hosts: seq<(Value, HostMapping)>, n: int, start: seq<Job>, cur: seq<Job>)
    requires 0 <= n <= |hosts|
  {
    |start| == |cur| == |hosts| &&
    forall j :: 0 <= j < |hosts| ==> cur[j] == Renamed(start[j], NameOf(hosts[..n], hosts[j].1))
  }

  /** `next` is `cur` after `hosts[n]`'s mapping was named after its key. */
  ghost predicate NamedNext(hosts: seq<(Value, HostMapping)>, n: int, cur: seq<Job>, next: seq<Job>)
    requires 0 <= n < |hosts|
  {
    |cur| == |next| == |hosts| &&
    forall j :: 0 <= j < |hosts| ==>
      next[j] == if hosts[j].1 == hosts[n].1 then SetField(cur[j], "name", hosts[n].0) else cur[j]
  }

  /** One pass of the naming loop on the contents of all mappings: the
      mapping of key `n` is named after it, every other one is untouched. */
  lemma RenameStep(hosts: seq<(Value, HostMapping)>, n: int, start: seq<Job>, cur: seq<Job>, next: seq<Job>)
    requires 0 <= n < |hosts|
    requires NamedUpTo(hosts, n, start, cur) && NamedNext(hosts, n, cur, next)
    ensures NamedUpTo(hosts, n + 1, start, next)
  {
    forall j | 0 <= j < |hosts|
      ensures next[j] == Renamed(start[j], NameOf(hosts[..n + 1], hosts[j].1))
    {
      NameOfStep(hosts, n, hosts[j].1);
      if hosts[j].1 == hosts[n].1 {
        match NameOf(hosts[..n], hosts[j].1)
        case None =>
        case Some(earlier) => SetFieldTwice(start[j], "name", earlier, hosts[n].0);
      }
    }
  }

  /** `hosts[key]['name'] = key` for the `n`-th key: every key sharing its
      mapping sees the new name. */
  method NameMapping(hosts: seq<(Value, HostMapping)>, n: int)
    requires 0 <= n < |hosts|
    modifies hosts[n].1
    ensures NamedNext(hosts, n, old(Fields(Mappings(hosts))), Fields(Mappings(hosts)))
  {
    hosts[n].1.fields := SetField(hosts[n].1.fields, "name", hosts[n].0);
  }

  /** One pass of the loop in `main`: the `n`-th mapping is named after its
      key and put on the queue. */
  method EnqueueOne(hosts: seq<(Value, HostMapping)>, n: int, queue: JobQueue, ghost start: seq<Job>)
    requires 0 <= n < |hosts|
    requires NamedUpTo(hosts, n, start, Fields(Mappings(hosts)))
    modifies queue, hosts[n].1
    ensures queue.items == old(queue.items) + [hosts[n].1]
    ensures NamedUpTo(hosts, n + 1, start, Fields(Mappings(hosts)))
  {
    ghost var cur := Fields(Mappings(hosts));
    NameMapping(hosts, n);
    RenameStep(hosts, n, start, cur, Fields(Mappings(hosts)));
    queue.Put(hosts[n].1);
  }

  /** Once the naming loop has passed every key, each mapping is named
      after the last key that shares it. */
  lemma NamedAll(hosts: seq<(Value, HostMapping)>, start: seq<Job>, cur: seq<Job>)
    requires NamedUpTo(hosts, |hosts|, start, cur)
    ensures |start| == |cur| == |hosts|
    ensures forall i :: 0 <= i < |hosts| ==> cur[i] == Renamed(start[i], NameOf(hosts, hosts[i].1))
  {
    assert hosts[..|hosts|] == hosts;
  }

  /** The loop in `main`: `hosts[key]['name'] = key` on the mapping itself,
      then `queue.put` of that mapping, in the hosts map's order. A shared
      mapping ends up named after the last of its keys. */
  method EnqueueHosts(hosts: seq<(Value, HostMapping)>, queue: JobQueue)
    modifies queue, Mappings(hosts)
    ensures queue.items == old(queue.items) + Mappings(hosts)
    ensures forall i :: 0 <= i < |hosts| ==>
      hosts[i].1.fields == Renamed(old(hosts[i].1.fields), NameOf(hosts, hosts[i].1))
  {
    var ms := Mappings(hosts);
    ghost var queued := queue.items;
    ghost var start := Fields(ms);
    assert hosts[..0] == [];
    var i := 0;
    while i < |hosts|
      invariant 0 <= i <= |hosts|
      invariant queue.items == queued + ms[..i]
      invariant NamedUpTo(hosts, i, start, Fields(ms))
    {
      assert queued + ms[..i + 1] == queued + ms[..i] + [ms[i]];
      EnqueueOne(hosts, i, queue, start);
      i := i + 1;
    }
    NamedAll(hosts, start, Fields(ms));
  }

  /** `main` from the queue onwards with one worker and no interrupt: every
      queued mapping is handed to `create_host` once, in order, with the
      contents the naming loop left in it, and the queue ends empty. */
  method RunBatch(cfg: map<string, string>, client: Client, hosts: seq<(Value, HostMapping)>) returns (worker: HostWorker)
    modifies Mappings(hosts)
    ensures worker.queue.items == []
    ensures worker.processed == Mappings(hosts)
    ensures |worker.reports| == |hosts|
    ensures forall i :: 0 <= i < |hosts| ==>
      worker.reports[i] == CreateHostSpec(cfg, client, hosts[i].1.fields)
    ensures forall i :: 0 <= i < |hosts| ==>
      hosts[i].1.fields == Renamed(old(hosts[i].1.fields), NameOf(hosts, hosts[i].1))
  {
    var queue := new JobQueue();
    EnqueueHosts(hosts, queue);
    worker := new HostWorker(queue, cfg, client);
    ghost var ms := queue.items;
    worker.Run(None);
    forall i | 0 <= i < |hosts|
      ensures worker.reports[i] == CreateHostSpec(cfg, client, hosts[i].1.fields)
    {
      assert ms[i] == hosts[i].1;
      assert worker.reports[0 + i] == CreateHostSpec(cfg, client, ms[i].fields);
    }
  }
}
