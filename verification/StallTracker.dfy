/** The stalled flag of a folder's peers (RefreshFolderCompletion in internal/api/folder_state.go). Each sweep
    rebuilds the progress table from the previous one; the flag is proved equal to a definition over the whole
    history of sweeps. A sweep whose folder list fails changes nothing and is not a sweep here. */
module StallTracker {
  import opened Options

  const STALL_AFTER := 60_000_000_000

  datatype Completion = Completion(needItems: int, needDeletes: int, needBytes: int)

  /** The bytes a peer last needed and when that number last dropped. */
  datatype Progress = Progress(needBytes: int, lastProgress: int)

  datatype PeerInfo = PeerInfo(need: bool, needBytes: int, needItems: int, stalled: bool)

  datatype Folder = Folder(id: string, devices: seq<string>)

  /** What one sweep sees. A (folder, device) pair without a completion is a failed lookup. */
  datatype Sweep = Sweep(now: int, folders: seq<Folder>, connected: set<string>,
                         completions: map<(string, string), Completion>)

  /** The devices of folder f; should an id be listed twice, the last one counts. */
  function DevicesOf(folders: seq<Folder>, f: string): seq<string>
    decreases |folders|
  {
    if folders == [] then []
    else if folders[|folders| - 1].id == f then folders[|folders| - 1].devices
    else DevicesOf(folders[..|folders| - 1], f)
  }

  lemma DevicesOneMore(folders: seq<Folder>, last: Folder)
    ensures forall f ::
              DevicesOf(folders + [last], f) == if f == last.id then last.devices else DevicesOf(folders, f)
  {
    assert (folders + [last])[..|folders|] == folders;
  }

  /** What the sweep finds out about device d in folder f. */
  function Found(s: Sweep, selfID: string, devices: seq<string>, f: string, d: string): Option<Completion> {
    if d in devices && d != selfID && (f, d) in s.completions then Some(s.completions[(f, d)]) else None
  }

  function NextProgress(before: Option<Progress>, c: Completion, now: int): Progress {
    Progress(c.needBytes,
             if before.Some? && c.needBytes >= before.value.needBytes then before.value.lastProgress else now)
  }

  function AfterSweep(before: Option<Progress>, found: Option<Completion>, now: int): Option<Progress> {
    if found.None? then None else Some(NextProgress(before, found.value, now))
  }

  function InfoAfterSweep(before: Option<Progress>, found: Option<Completion>, connected: bool,
                          now: int): Option<PeerInfo>
  {
    if found.None? then None else
    var c := found.value;
    var need := c.needItems > 0 || c.needDeletes > 0 || c.needBytes > 0;
    var since := NextProgress(before, c, now).lastProgress;
    var stalled := need && c.needBytes > 0 && connected && now - since >= STALL_AFTER;
    Some(PeerInfo(need, c.needBytes, c.needItems, stalled))
  }

  function Get<V>(m: map<string, map<string, V>>, f: string, d: string): Option<V> {
    if f in m && d in m[f] then Some(m[f][d]) else None
  }

  function GetOne<V>(m: map<string, V>, d: string): Option<V> {
    if d in m then Some(m[d]) else None
  }

  class Tracker {
    const selfID: string
    var folderPeerProgress: map<string, map<string, Progress>>
    var folderPeer: map<string, map<string, PeerInfo>>
    /** Every sweep so far. */
    ghost var sweeps: seq<Sweep>

    /** The tables hold, for every folder and device, what the history of its sweeps amounts to. */
    ghost predicate Valid()
      reads this
    {
      && (forall f, d :: Get(folderPeerProgress, f, d) == ProgressAfter(Seen(sweeps, selfID, f, d)))
      && (sweeps != [] ==> forall f, d :: Get(folderPeer, f, d) == InfoAfter(Seen(sweeps, selfID, f, d)))
    }

    constructor (selfID: string)
      ensures Valid() && sweeps == []
      ensures this.selfID == selfID && folderPeerProgress == map[] && folderPeer == map[]
    {
      this.selfID, folderPeerProgress, folderPeer, sweeps := selfID, map[], map[], [];
    }

    method RefreshFolderCompletion(s: Sweep)
      requires Valid()
      modifies this
      ensures Valid() && sweeps == old(sweeps) + [s]
    {
      var prev := folderPeerProgress;
      ghost var before := sweeps;
      var nextProgress, peerInfo := RefreshFolders(s, prev);
      forall f, d
        ensures Get(nextProgress, f, d) == ProgressAfter(Seen(before + [s], selfID, f, d))
        ensures Get(peerInfo, f, d) == InfoAfter(Seen(before + [s], selfID, f, d))
      {
        SeenOneMore(before, s, selfID, f, d);
        assert Get(prev, f, d) == ProgressAfter(Seen(before, selfID, f, d));
      }
      folderPeerProgress, folderPeer, sweeps := nextProgress, peerInfo, before + [s];
    }

    /** The outer loop, over the folders. */
    method RefreshFolders(s: Sweep, prev: map<string, map<string, Progress>>)
      returns (nextProgress: map<string, map<string, Progress>>, peerInfo: map<string, map<string, PeerInfo>>)
      ensures forall f, d ::
                Get(nextProgress, f, d)
                == AfterSweep(Get(prev, f, d), Found(s, selfID, DevicesOf(s.folders, f), f, d), s.now)
      ensures forall f, d ::
                Get(peerInfo, f, d)
                == InfoAfterSweep(Get(prev, f, d), Found(s, selfID, DevicesOf(s.folders, f), f, d), d in s.connected,
                                  s.now)
    {
      nextProgress, peerInfo := map[], map[];
      for i := 0 to |s.folders|
        invariant forall f, d ::
          Get(nextProgress, f, d)
          == AfterSweep(Get(prev, f, d), Found(s, selfID, DevicesOf(s.folders[..i], f), f, d), s.now)
        invariant forall f, d ::
          Get(peerInfo, f, d)
          == InfoAfterSweep(Get(prev, f, d), Found(s, selfID, DevicesOf(s.folders[..i], f), f, d), d in s.connected,
                            s.now)
      {
        var f := s.folders[i];
        assert s.folders[..i + 1] == s.folders[..i] + [f];
        var perDeviceProg, perDeviceInfo := RefreshFolder(s, f, prev);
        DevicesOneMore(s.folders[..i], f);
        nextProgress := nextProgress[f.id := perDeviceProg];
        peerInfo := peerInfo[f.id := perDeviceInfo];
      }
      assert s.folders[..|s.folders|] == s.folders;
    }

    /** The inner loop, over the devices of one folder. */
    method RefreshFolder(s: Sweep, f: Folder, prev: map<string, map<string, Progress>>)
      returns (prog: map<string, Progress>, info: map<string, PeerInfo>)
      ensures forall d :: GetOne(prog, d) == AfterSweep(Get(prev, f.id, d), Found(s, selfID, f.devices, f.id, d), s.now)
      ensures forall d ::
                GetOne(info, d)
                == InfoAfterSweep(Get(prev, f.id, d), Found(s, selfID, f.devices, f.id, d), d in s.connected, s.now)
    {
      prog, info := map[], map[];
      for j := 0 to |f.devices|
        invariant forall d ::
          GetOne(prog, d) == AfterSweep(Get(prev, f.id, d), Found(s, selfID, f.devices[..j], f.id, d), s.now)
        invariant forall d ::
          GetOne(info, d)
          == InfoAfterSweep(Get(prev, f.id, d), Found(s, selfID, f.devices[..j], f.id, d), d in s.connected, s.now)
      {
        var d := f.devices[j];
        assert f.devices[..j + 1] == f.devices[..j] + [d];
        if d != selfID && (f.id, d) in s.completions {
          var p, i := RefreshDevice(s, Get(prev, f.id, d), s.completions[(f.id, d)], d in s.connected);
          prog := prog[d := p];
          info := info[d := i];
        }
      }
      assert f.devices[..|f.devices|] == f.devices;
    }

    /** One device that was looked up successfully. */
    method RefreshDevice(s: Sweep, before: Option<Progress>, comp: Completion, connected: bool)
      returns (prog: Progress, info: PeerInfo)
      ensures Some(prog) == AfterSweep(before, Some(comp), s.now)
      ensures Some(info) == InfoAfterSweep(before, Some(comp), connected, s.now)
    {
      var need := comp.needItems > 0 || comp.needDeletes > 0 || comp.needBytes > 0;
      var lastProg := s.now;
      if before.Some? {
        if comp.needBytes < before.value.needBytes {
          lastProg := s.now;
        } else {
          lastProg := before.value.lastProgress;
        }
      }
      prog := Progress(comp.needBytes, lastProg);
      var stalled := need && comp.needBytes > 0 && connected && s.now - lastProg >= STALL_AFTER;
      info := PeerInfo(need, comp.needBytes, comp.needItems, stalled);
    }
  }

  // --- One (folder, device) pair over a history of sweeps ---

  /** What a sweep tells about one pair. */
  datatype Observation = Observation(now: int, found: Option<Completion>, connected: bool)

  function Observe(s: Sweep, selfID: string, f: string, d: string): Observation {
    Observation(s.now, Found(s, selfID, DevicesOf(s.folders, f), f, d), d in s.connected)
  }

  /** What the sweeps tell about device d in folder f. */
  function Seen(sweeps: seq<Sweep>, selfID: string, f: string, d: string): (history: seq<Observation>)
    ensures |history| == |sweeps|
  {
    seq(|sweeps|, i requires 0 <= i < |sweeps| => Observe(sweeps[i], selfID, f, d))
  }

  function ProgressAfter(history: seq<Observation>): Option<Progress>
    decreases |history|
  {
    if history == [] then None else
    var last := history[|history| - 1];
    AfterSweep(ProgressAfter(history[..|history| - 1]), last.found, last.now)
  }

  function InfoAfter(history: seq<Observation>): Option<PeerInfo>
    requires history != []
  {
    var last := history[|history| - 1];
    InfoAfterSweep(ProgressAfter(history[..|history| - 1]), last.found, last.connected, last.now)
  }

  lemma SeenOneMore(sweeps: seq<Sweep>, s: Sweep, selfID: string, f: string, d: string)
    ensures var found := Found(s, selfID, DevicesOf(s.folders, f), f, d);
            var before, after := Seen(sweeps, selfID, f, d), Seen(sweeps + [s], selfID, f, d);
            && ProgressAfter(after) == AfterSweep(ProgressAfter(before), found, s.now)
            && InfoAfter(after) == InfoAfterSweep(ProgressAfter(before), found, d in s.connected, s.now)
  {
    assert Seen(sweeps + [s], selfID, f, d) == Seen(sweeps, selfID, f, d) + [Observe(s, selfID, f, d)];
    assert Seen(sweeps + [s], selfID, f, d)[..|sweeps|] == Seen(sweeps, selfID, f, d);
  }

  /** The flag the sweep publishes, false if it publishes nothing. */
  predicate Stalled(history: seq<Observation>)
    requires history != []
  {
    InfoAfter(history).Some? && InfoAfter(history).value.stalled
  }

  /** Sweep j and the one before it both succeeded, and the bytes did not drop in between. */
  predicate NoDrop(history: seq<Observation>, j: nat)
    requires 0 < j < |history|
  {
    var before, found := history[j - 1].found, history[j].found;
    before.Some? && found.Some? && found.value.needBytes >= before.value.needBytes
  }

  /** From sweep i on, every lookup succeeded and the bytes never dropped. */
  predicate NoProgressSince(history: seq<Observation>, i: nat)
    requires i < |history|
  {
    history[i].found.Some? && forall j :: i < j < |history| ==> NoDrop(history, j)
  }

  predicate Ascending(history: seq<Observation>) {
    forall i, j :: 0 <= i < j < |history| ==> history[i].now <= history[j].now
  }

  /** The progress table remembers the time of the sweep that began the current run without progress. */
  lemma {:induction false} RunStart(history: seq<Observation>) returns (k: nat)
    requires history != [] && history[|history| - 1].found.Some?
    ensures k < |history| && NoProgressSince(history, k)
    ensures k == 0 || !NoProgressSince(history, k - 1)
    ensures ProgressAfter(history) == Some(Progress(history[|history| - 1].found.value.needBytes, history[k].now))
    decreases |history|
  {
    var n := |history| - 1;
    var front := history[..n];
    if n == 0 || front[n - 1].found.None? {
      k := n;
      assert n > 0 ==> !NoProgressSince(history, n - 1);
    } else {
      var k' := RunStart(front);
      if history[n].found.value.needBytes < history[n - 1].found.value.needBytes {
        k := n;
        assert !NoDrop(history, n);
      } else {
        k := k';
        OneMoreSweep(history, k);
        if k > 0 {
          OneMoreSweep(history, k - 1);
        }
      }
    }
  }

  lemma OneMoreSweep(history: seq<Observation>, i: nat)
    requires i < |history| - 1
    ensures NoProgressSince(history, i)
            <==> NoProgressSince(history[..|history| - 1], i) && NoDrop(history, |history| - 1)
  {
    var front := history[..|history| - 1];
    assert forall j :: i < j < |front| ==> (NoDrop(front, j) <==> NoDrop(history, j));
  }

  lemma NoProgressLater(history: seq<Observation>, i: nat, j: nat)
    requires i <= j < |history| && NoProgressSince(history, i)
    ensures NoProgressSince(history, j)
  {
    assert i < j ==> NoDrop(history, j);
  }

  /** A peer is stalled exactly when it is connected, needs bytes, and some sweep at least STALL_AFTER ago began an
      unbroken streak of successful lookups in which the bytes it needs never dropped. */
  lemma StalledIff(history: seq<Observation>)
    requires history != [] && Ascending(history)
    ensures var last := history[|history| - 1];
            Stalled(history) <==>
            && last.connected && last.found.Some? && last.found.value.needBytes > 0
            && exists i :: 0 <= i < |history| && NoProgressSince(history, i) && last.now - history[i].now >= STALL_AFTER
  {
    var last := history[|history| - 1];
    if last.found.Some? {
      var k := RunStart(history);
      assert ProgressAfter(history).value.lastProgress == history[k].now;
      if i :| 0 <= i < |history| && NoProgressSince(history, i) && last.now - history[i].now >= STALL_AFTER {
        if i < k {
          NoProgressLater(history, i, k - 1);
        }
        assert history[k].now <= history[i].now;
      }
    }
  }

  /** A peer whose lookup failed, or whose bytes dropped, less than STALL_AFTER ago is never stalled. */
  lemma RecentProgressIsNotStalled(history: seq<Observation>, j: nat)
    requires history != [] && Ascending(history) && j < |history|
    requires history[|history| - 1].now - history[j].now < 60_000_000_000
    requires j == 0 || history[j - 1].found.None? || history[j].found.None?
             || history[j].found.value.needBytes < history[j - 1].found.value.needBytes
    ensures !Stalled(history)
  {
    StalledIff(history);
    if i :| 0 <= i < |history| && NoProgressSince(history, i)
            && history[|history| - 1].now - history[i].now >= STALL_AFTER {
      assert i < j;
      assert NoDrop(history, j);
    }
  }

  // --- What else a sweep publishes ---

  /** A sweep takes up a device of a folder exactly if the folder lists it, it is not ourselves and its lookup succeeds.
      Should two folders share an id, the last one counts. */
  lemma FoundIff(s: Sweep, selfID: string, i: nat, d: string)
    requires i < |s.folders| && forall j :: i < j < |s.folders| ==> s.folders[j].id != s.folders[i].id
    ensures var f := s.folders[i].id;
            && (Found(s, selfID, DevicesOf(s.folders, f), f, d).Some? <==>
                  d in s.folders[i].devices && d != selfID && (f, d) in s.completions)
            && (Found(s, selfID, DevicesOf(s.folders, f), f, d).Some? ==>
                  Found(s, selfID, DevicesOf(s.folders, f), f, d).value == s.completions[(f, d)])
  {
    LastOfItsID(s.folders, i);
  }

  lemma {:induction false} LastOfItsID(folders: seq<Folder>, i: nat)
    requires i < |folders| && forall j :: i < j < |folders| ==> folders[j].id != folders[i].id
    ensures DevicesOf(folders, folders[i].id) == folders[i].devices
    decreases |folders|
  {
    if i < |folders| - 1 {
      LastOfItsID(folders[..|folders| - 1], i);
    }
  }

  /** A folder that is not configured has nothing published. */
  lemma {:induction false} UnknownFolderHasNothing(folders: seq<Folder>, f: string)
    requires forall i :: 0 <= i < |folders| ==> folders[i].id != f
    ensures DevicesOf(folders, f) == []
    decreases |folders|
  {
    if folders != [] {
      UnknownFolderHasNothing(folders[..|folders| - 1], f);
    }
  }

  /** What is published for a device taken up: what it needs as the lookup says, and that it needs something exactly if
      items, deletions or bytes are missing. Nothing is published for any other device. */
  lemma PublishedIff(history: seq<Observation>)
    requires history != []
    ensures var last, info := history[|history| - 1], InfoAfter(history);
            && (info.Some? <==> last.found.Some?)
            && (info.Some? ==>
                  var c := last.found.value;
                  && info.value.needBytes == c.needBytes && info.value.needItems == c.needItems
                  && (info.value.need <==> c.needItems > 0 || c.needDeletes > 0 || c.needBytes > 0))
  {
  }
}
