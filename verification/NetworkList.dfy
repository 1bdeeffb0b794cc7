/** The list of the Devices page (deriveNetwork in web/src/components/Discovery/Discovery.logic.ts): every device
    and every incoming request falls into at most one of five kinds. */
module NetworkList {
  import opened Options

  datatype Device = Device(id: string, name: string, connected: bool, stPaired: bool, accepted: bool)

  datatype Request = Request(id: string, name: string)

  /** folderIDs are the devices of all folders; accepted are the requests just accepted on this page. */
  datatype Input = Input(devices: seq<Device>, incoming: seq<Request>, folderIDs: set<string>, accepted: set<string>)

  datatype Kind = Incoming | Waiting | Connected | Offline | Discoverable

  datatype Entry = Entry(kind: Kind, id: string, name: string)

  function KnownIDs(w: Input): set<string> {
    set d | d in w.devices && (d.stPaired || d.id in w.folderIDs) :: d.id
  }

  function IncomingIDs(w: Input): set<string> {
    set p | p in w.incoming :: p.id
  }

  function DeviceById(devices: seq<Device>, id: string): Option<Device>
    decreases |devices|
  {
    if devices == [] then None
    else if devices[|devices| - 1].id == id then Some(devices[|devices| - 1])
    else DeviceById(devices[..|devices| - 1], id)
  }

  function NameOfRequest(w: Input, p: Request): string {
    var dev := DeviceById(w.devices, p.id);
    if dev.Some? && dev.value.name != "" then dev.value.name
    else if p.name != "" then p.name
    else if |p.id| < 7 then p.id else p.id[..7]
  }

  predicate IsIncoming(w: Input, p: Request) {
    p.id !in KnownIDs(w) && p.id !in w.accepted
  }

  predicate IsKind(w: Input, d: Device, k: Kind) {
    match k
    case Incoming => false
    case Waiting => d.stPaired && !d.accepted
    case Connected => d.connected && d.id in KnownIDs(w) && (d.accepted || !d.stPaired)
    case Offline => !d.connected && d.id in KnownIDs(w) && d.accepted
    case Discoverable => d.connected && d.id !in KnownIDs(w) && d.id !in IncomingIDs(w) && d.id !in w.accepted
  }

  function OfKind(w: Input, devices: seq<Device>, k: Kind): seq<Entry> {
    if devices == [] then []
    else if IsKind(w, devices[0], k) then [Entry(k, devices[0].id, devices[0].name)] + OfKind(w, devices[1..], k)
    else OfKind(w, devices[1..], k)
  }

  function IncomingEntries(w: Input, incoming: seq<Request>): seq<Entry> {
    if incoming == [] then []
    else if IsIncoming(w, incoming[0]) then
      [Entry(Incoming, incoming[0].id, NameOfRequest(w, incoming[0]))] + IncomingEntries(w, incoming[1..])
    else IncomingEntries(w, incoming[1..])
  }

  function Unsorted(w: Input): seq<Entry> {
    IncomingEntries(w, w.incoming) + OfKind(w, w.devices, Waiting) + OfKind(w, w.devices, Connected)
    + OfKind(w, w.devices, Offline) + OfKind(w, w.devices, Discoverable)
  }

  /** The stable sort by name, for any comparison leq of names. */
  function Insert(leq: (string, string) -> bool, e: Entry, s: seq<Entry>): seq<Entry> {
    if s == [] || leq(e.name, s[0].name) then [e] + s else [s[0]] + Insert(leq, e, s[1..])
  }

  function Sort(leq: (string, string) -> bool, s: seq<Entry>): seq<Entry> {
    if s == [] then [] else Insert(leq, s[0], Sort(leq, s[1..]))
  }

  function DeriveNetwork(leq: (string, string) -> bool, w: Input): seq<Entry> {
    Sort(leq, Unsorted(w))
  }

  // --- One entry per id ---

  ghost predicate DistinctInput(w: Input) {
    && (forall i, j :: 0 <= i < j < |w.devices| ==> w.devices[i].id != w.devices[j].id)
    && (forall i, j :: 0 <= i < j < |w.incoming| ==> w.incoming[i].id != w.incoming[j].id)
  }

  predicate DistinctIds(s: seq<Entry>) {
    forall i, j :: 0 <= i < j < |s| ==> s[i].id != s[j].id
  }

  predicate Shows(s: seq<Entry>, id: string, k: Kind) {
    exists e :: e in s && e.id == id && e.kind == k
  }

  function PairedKind(d: Device): Kind {
    if !d.accepted then Waiting else if d.connected then Connected else Offline
  }

  /** The kind an id belongs to, said once for all: incoming requests first, then by the device's own flags. */
  function KindOf(w: Input, id: string): Option<Kind> {
    var dev := DeviceById(w.devices, id);
    var known := dev.Some? && (dev.value.stPaired || id in w.folderIDs);
    if id in IncomingIDs(w) && !known && id !in w.accepted then Some(Incoming)
    else if dev.None? then None
    else if dev.value.stPaired && !dev.value.accepted then Some(Waiting)
    else if known && dev.value.connected then Some(Connected)
    else if known then if dev.value.accepted then Some(Offline) else None
    else if dev.value.connected && id !in IncomingIDs(w) && id !in w.accepted then Some(Discoverable)
    else None
  }

  lemma {:induction false} DeviceByIdFinds(devices: seq<Device>, id: string)
    requires forall i, j :: 0 <= i < j < |devices| ==> devices[i].id != devices[j].id
    ensures forall d :: d in devices && d.id == id <==> DeviceById(devices, id) == Some(d)
    decreases |devices|
  {
    if devices != [] {
      var n := |devices| - 1;
      DeviceByIdFinds(devices[..n], id);
      assert devices == devices[..n] + [devices[n]];
    }
  }

  lemma {:induction false} OfKindMembers(w: Input, devices: seq<Device>, k: Kind)
    requires forall i, j :: 0 <= i < j < |devices| ==> devices[i].id != devices[j].id
    ensures forall e :: e in OfKind(w, devices, k) <==>
              e.kind == k && exists d :: d in devices && IsKind(w, d, k) && e.id == d.id && e.name == d.name
    ensures DistinctIds(OfKind(w, devices, k))
  {
    if devices != [] {
      OfKindMembers(w, devices[1..], k);
      assert devices == [devices[0]] + devices[1..];
      forall e | e in OfKind(w, devices[1..], k) ensures e.id != devices[0].id {
        var d :| d in devices[1..] && e.id == d.id;
      }
    }
  }

  lemma {:induction false} IncomingMembers(w: Input, incoming: seq<Request>)
    requires forall i, j :: 0 <= i < j < |incoming| ==> incoming[i].id != incoming[j].id
    ensures forall e :: e in IncomingEntries(w, incoming) <==>
              e.kind == Incoming
              && exists p :: p in incoming && IsIncoming(w, p) && e.id == p.id && e.name == NameOfRequest(w, p)
    ensures DistinctIds(IncomingEntries(w, incoming))
  {
    if incoming != [] {
      IncomingMembers(w, incoming[1..]);
      assert incoming == [incoming[0]] + incoming[1..];
      forall e | e in IncomingEntries(w, incoming[1..]) ensures e.id != incoming[0].id {
        var p :| p in incoming[1..] && e.id == p.id;
      }
    }
  }

  lemma KnownIff(w: Input, id: string)
    requires DistinctInput(w)
    ensures var dev := DeviceById(w.devices, id);
            id in KnownIDs(w) <==> dev.Some? && (dev.value.stPaired || id in w.folderIDs)
  {
    DeviceByIdFinds(w.devices, id);
  }

  /** An entry of kind k for an id is in the unsorted list exactly when KindOf says so. */
  lemma UnsortedMembers(w: Input, id: string, k: Kind)
    requires DistinctInput(w)
    ensures Shows(Unsorted(w), id, k) <==> KindOf(w, id) == Some(k)
  {
    DeviceByIdFinds(w.devices, id);
    KnownIff(w, id);
    IncomingMembers(w, w.incoming);
    OfKindMembers(w, w.devices, Waiting);
    OfKindMembers(w, w.devices, Connected);
    OfKindMembers(w, w.devices, Offline);
    OfKindMembers(w, w.devices, Discoverable);
    if KindOf(w, id) == Some(k) {
      if k == Incoming {
        var p :| p in w.incoming && p.id == id;
        assert Entry(Incoming, id, NameOfRequest(w, p)) in IncomingEntries(w, w.incoming);
      } else {
        var d := DeviceById(w.devices, id).value;
        assert d in w.devices && IsKind(w, d, k);
        assert Entry(k, id, d.name) in OfKind(w, w.devices, k);
      }
    }
  }

  lemma OneKindPerId(w: Input, x: Entry, y: Entry)
    requires DistinctInput(w) && x in Unsorted(w) && y in Unsorted(w) && x.id == y.id
    ensures x.kind == y.kind
  {
    UnsortedMembers(w, x.id, x.kind);
    UnsortedMembers(w, y.id, y.kind);
  }

  lemma DistinctJoin(w: Input, a: seq<Entry>, b: seq<Entry>, kinds: set<Kind>)
    requires DistinctInput(w) && DistinctIds(a) && DistinctIds(b)
    requires forall x :: x in a ==> x in Unsorted(w) && x.kind in kinds
    requires forall y :: y in b ==> y in Unsorted(w) && y.kind !in kinds
    ensures DistinctIds(a + b)
  {
    forall x, y | x in a && y in b ensures x.id != y.id {
      if x.id == y.id { OneKindPerId(w, x, y); }
    }
  }

  /** The five lists share no id, although their filters are written independently of each other. */
  lemma UnsortedDistinct(w: Input)
    requires DistinctInput(w)
    ensures DistinctIds(Unsorted(w))
  {
    IncomingMembers(w, w.incoming);
    OfKindMembers(w, w.devices, Waiting);
    OfKindMembers(w, w.devices, Connected);
    OfKindMembers(w, w.devices, Offline);
    OfKindMembers(w, w.devices, Discoverable);
    var p, q := IncomingEntries(w, w.incoming), OfKind(w, w.devices, Waiting);
    var r, s, t := OfKind(w, w.devices, Connected), OfKind(w, w.devices, Offline), OfKind(w, w.devices, Discoverable);
    assert Unsorted(w) == p + q + r + s + t;
    DistinctJoin(w, p, q, {Incoming});
    DistinctJoin(w, p + q, r, {Incoming, Waiting});
    DistinctJoin(w, p + q + r, s, {Incoming, Waiting, Connected});
    DistinctJoin(w, p + q + r + s, t, {Incoming, Waiting, Connected, Offline});
  }

  // --- The sort ---

  ghost predicate IsOrder(leq: (string, string) -> bool) {
    forall a, b, c :: (leq(a, b) || leq(b, a)) && (leq(a, b) && leq(b, c) ==> leq(a, c))
  }

  predicate AllAbove(leq: (string, string) -> bool, n: string, s: seq<Entry>) {
    forall x :: x in s ==> leq(n, x.name)
  }

  predicate SortedByName(leq: (string, string) -> bool, s: seq<Entry>) {
    s == [] || (AllAbove(leq, s[0].name, s[1..]) && SortedByName(leq, s[1..]))
  }

  lemma {:induction false} InsertPermutes(leq: (string, string) -> bool, e: Entry, s: seq<Entry>)
    ensures multiset(Insert(leq, e, s)) == multiset([e]) + multiset(s)
  {
    if s != [] {
      InsertPermutes(leq, e, s[1..]);
      assert s == [s[0]] + s[1..];
    }
  }

  lemma {:induction false} InsertKeepsSorted(leq: (string, string) -> bool, e: Entry, s: seq<Entry>)
    requires IsOrder(leq) && SortedByName(leq, s)
    ensures SortedByName(leq, Insert(leq, e, s))
  {
    if s != [] {
      if leq(e.name, s[0].name) {
        forall x | x in s ensures leq(e.name, x.name) {
          assert x == s[0] || x in s[1..];
        }
        assert ([e] + s)[1..] == s;
      } else {
        InsertKeepsSorted(leq, e, s[1..]);
        var rest := Insert(leq, e, s[1..]);
        InsertPermutes(leq, e, s[1..]);
        forall x | x in rest ensures leq(s[0].name, x.name) {
          assert x in multiset(rest);
        }
        assert ([s[0]] + rest)[1..] == rest;
      }
    }
  }

  lemma {:induction false} SortSorts(leq: (string, string) -> bool, s: seq<Entry>)
    requires IsOrder(leq)
    ensures SortedByName(leq, Sort(leq, s))
    ensures multiset(Sort(leq, s)) == multiset(s)
  {
    if s != [] {
      SortSorts(leq, s[1..]);
      InsertKeepsSorted(leq, s[0], Sort(leq, s[1..]));
      InsertPermutes(leq, s[0], Sort(leq, s[1..]));
      assert s == [s[0]] + s[1..];
    }
  }

  /** The entries that compare equal to name n, in order. */
  function Alike(leq: (string, string) -> bool, n: string, s: seq<Entry>): seq<Entry> {
    if s == [] then []
    else (if leq(n, s[0].name) && leq(s[0].name, n) then [s[0]] else []) + Alike(leq, n, s[1..])
  }

  lemma {:induction false} InsertIsStable(leq: (string, string) -> bool, n: string, e: Entry, s: seq<Entry>)
    requires IsOrder(leq)
    ensures Alike(leq, n, Insert(leq, e, s)) == Alike(leq, n, [e] + s)
  {
    assert ([e] + s)[1..] == s;
    if s != [] && !leq(e.name, s[0].name) {
      InsertIsStable(leq, n, e, s[1..]);
      assert ([e] + s[1..])[1..] == s[1..];
      assert ([s[0]] + Insert(leq, e, s[1..]))[1..] == Insert(leq, e, s[1..]);
      var first := s[0].name;
      assert !(leq(e.name, n) && leq(n, first));
    }
  }

  /** The sort is stable: entries whose names compare equal stay in the order of the five lists. */
  lemma {:induction false} SortIsStable(leq: (string, string) -> bool, n: string, s: seq<Entry>)
    requires IsOrder(leq)
    ensures Alike(leq, n, Sort(leq, s)) == Alike(leq, n, s)
  {
    if s != [] {
      SortIsStable(leq, n, s[1..]);
      InsertIsStable(leq, n, s[0], Sort(leq, s[1..]));
      assert ([s[0]] + Sort(leq, s[1..]))[1..] == Sort(leq, s[1..]);
    }
  }

  function Ids(s: seq<Entry>): multiset<string> {
    if s == [] then multiset{} else multiset{s[0].id} + Ids(s[1..])
  }

  lemma {:induction false} IdsAreTheIds(s: seq<Entry>, id: string)
    ensures id in Ids(s) <==> exists e :: e in s && e.id == id
  {
    if s != [] {
      IdsAreTheIds(s[1..], id);
      assert s == [s[0]] + s[1..];
    }
  }

  lemma {:induction false} DistinctMeansOnce(s: seq<Entry>, id: string)
    requires DistinctIds(s)
    ensures Ids(s)[id] <= 1
  {
    if s != [] {
      DistinctMeansOnce(s[1..], id);
      IdsAreTheIds(s[1..], s[0].id);
    }
  }

  lemma {:induction false} OnceMeansDistinct(s: seq<Entry>)
    requires forall id :: Ids(s)[id] <= 1
    ensures DistinctIds(s)
  {
    if s != [] {
      forall id ensures Ids(s[1..])[id] <= 1 {
        assert Ids(s)[id] <= 1;
      }
      OnceMeansDistinct(s[1..]);
      assert Ids(s)[s[0].id] <= 1;
      IdsAreTheIds(s[1..], s[0].id);
    }
  }

  lemma {:induction false} InsertKeepsIds(leq: (string, string) -> bool, e: Entry, s: seq<Entry>)
    ensures Ids(Insert(leq, e, s)) == multiset{e.id} + Ids(s)
  {
    if s != [] {
      InsertKeepsIds(leq, e, s[1..]);
      assert ([e] + s)[1..] == s;
      assert Insert(leq, e, s[1..]) == ([s[0]] + Insert(leq, e, s[1..]))[1..];
    }
  }

  lemma {:induction false} SortKeepsIds(leq: (string, string) -> bool, s: seq<Entry>)
    ensures Ids(Sort(leq, s)) == Ids(s)
  {
    if s != [] {
      SortKeepsIds(leq, s[1..]);
      InsertKeepsIds(leq, s[0], Sort(leq, s[1..]));
    }
  }

  // --- The page ---

  /** For distinct devices and distinct requests the page is a sorted reordering of the five lists, shows each id at
      most once, and shows an id as kind k exactly when KindOf says k. */
  lemma PartitionOfThePage(leq: (string, string) -> bool, w: Input)
    requires IsOrder(leq) && DistinctInput(w)
    ensures SortedByName(leq, DeriveNetwork(leq, w))
    ensures multiset(DeriveNetwork(leq, w)) == multiset(Unsorted(w))
    ensures DistinctIds(DeriveNetwork(leq, w))
    ensures forall id, k :: Shows(DeriveNetwork(leq, w), id, k) <==> KindOf(w, id) == Some(k)
  {
    SortSorts(leq, Unsorted(w));
    UnsortedDistinct(w);
    SortKeepsIds(leq, Unsorted(w));
    forall id ensures Ids(DeriveNetwork(leq, w))[id] <= 1 {
      DistinctMeansOnce(Unsorted(w), id);
    }
    OnceMeansDistinct(DeriveNetwork(leq, w));
    SameMembers(Unsorted(w), DeriveNetwork(leq, w));
    forall id, k ensures Shows(DeriveNetwork(leq, w), id, k) <==> KindOf(w, id) == Some(k) {
      UnsortedMembers(w, id, k);
    }
  }

  lemma SameMembers(s: seq<Entry>, t: seq<Entry>)
    requires multiset(s) == multiset(t)
    ensures forall e :: e in s <==> e in t
  {
    forall e ensures e in s <==> e in t {
      assert e in s <==> e in multiset(s);
      assert e in t <==> e in multiset(t);
    }
  }

  lemma PairedIsListed(w: Input, d: Device)
    requires DistinctInput(w) && d in w.devices && d.stPaired
    ensures Entry(PairedKind(d), d.id, d.name) in Unsorted(w)
  {
    var k := PairedKind(d);
    assert d.id in KnownIDs(w);
    assert IsKind(w, d, k);
    OfKindMembers(w, w.devices, k);
    assert Entry(k, d.id, d.name) in OfKind(w, w.devices, k);
  }

  /** No paired device is ever missing from the page: it is shown, once, under its own name, as waiting, connected
      or offline, whatever its request and folder state. A device the page leaves out is not paired. */
  lemma EveryPairedDeviceIsShown(leq: (string, string) -> bool, w: Input, d: Device)
    requires IsOrder(leq) && DistinctInput(w) && d in w.devices && d.stPaired
    ensures exists i ::
              && 0 <= i < |DeriveNetwork(leq, w)|
              && DeriveNetwork(leq, w)[i] == Entry(PairedKind(d), d.id, d.name)
              && (forall j :: 0 <= j < |DeriveNetwork(leq, w)| && j != i ==> DeriveNetwork(leq, w)[j].id != d.id)
  {
    PartitionOfThePage(leq, w);
    SameMembers(Unsorted(w), DeriveNetwork(leq, w));
    PairedIsListed(w, d);
    var page := DeriveNetwork(leq, w);
    var k := PairedKind(d);
    var i :| 0 <= i < |page| && page[i] == Entry(k, d.id, d.name);
    assert forall j :: 0 <= j < |page| && j != i ==> page[j].id != d.id;
  }

  // --- The page in the page's own terms ---

  /** The kind of a device's id by the device's own flags alone. */
  lemma KindOfDevice(w: Input, d: Device)
    requires DistinctInput(w) && d in w.devices
    ensures var known := d.stPaired || d.id in w.folderIDs;
            var asks := exists p :: p in w.incoming && p.id == d.id;
            && (KindOf(w, d.id) == Some(Waiting) <==> d.stPaired && !d.accepted)
            && (KindOf(w, d.id) == Some(Connected) <==> d.connected && known && (d.accepted || !d.stPaired))
            && (KindOf(w, d.id) == Some(Offline) <==> !d.connected && known && d.accepted)
            && (KindOf(w, d.id) == Some(Incoming) <==> asks && !known && d.id !in w.accepted)
            && (KindOf(w, d.id) == Some(Discoverable) <==> d.connected && !known && !asks && d.id !in w.accepted)
  {
    DeviceByIdFinds(w.devices, d.id);
    assert DeviceById(w.devices, d.id) == Some(d);
  }

  lemma KindWithoutADevice(w: Input, id: string, k: Kind)
    requires DistinctInput(w) && forall d :: d in w.devices ==> d.id != id
    ensures KindOf(w, id) == Some(k) <==>
              k == Incoming && id !in w.accepted && exists p :: p in w.incoming && p.id == id
  {
    DeviceByIdFinds(w.devices, id);
  }

  lemma ShowsIff(leq: (string, string) -> bool, w: Input, id: string, k: Kind)
    requires IsOrder(leq) && DistinctInput(w)
    ensures Shows(DeriveNetwork(leq, w), id, k) <==> KindOf(w, id) == Some(k)
  {
    PartitionOfThePage(leq, w);
  }

  /** What the page shows for a device: as connected or offline only what is known and accepted, or known from a folder
      only; and as discoverable only a connected stranger that neither asks nor has just been accepted. */
  lemma ShownAsIff(leq: (string, string) -> bool, w: Input, d: Device)
    requires IsOrder(leq) && DistinctInput(w) && d in w.devices
    ensures var page := DeriveNetwork(leq, w);
            var known := d.stPaired || d.id in w.folderIDs;
            var asks := exists p :: p in w.incoming && p.id == d.id;
            && (Shows(page, d.id, Waiting) <==> d.stPaired && !d.accepted)
            && (Shows(page, d.id, Connected) <==> d.connected && known && (d.accepted || !d.stPaired))
            && (Shows(page, d.id, Offline) <==> !d.connected && known && d.accepted)
            && (Shows(page, d.id, Incoming) <==> asks && !known && d.id !in w.accepted)
            && (Shows(page, d.id, Discoverable) <==> d.connected && !known && !asks && d.id !in w.accepted)
  {
    KindOfDevice(w, d);
    ShowsIff(leq, w, d.id, Waiting);
    ShowsIff(leq, w, d.id, Connected);
    ShowsIff(leq, w, d.id, Offline);
    ShowsIff(leq, w, d.id, Incoming);
    ShowsIff(leq, w, d.id, Discoverable);
  }

  /** A request from a device the node has never seen is shown unless it has just been accepted, and nothing else is
      shown without a device. */
  lemma ShownWithoutADeviceIff(leq: (string, string) -> bool, w: Input, id: string, k: Kind)
    requires IsOrder(leq) && DistinctInput(w) && forall d :: d in w.devices ==> d.id != id
    ensures Shows(DeriveNetwork(leq, w), id, k) <==>
              k == Incoming && id !in w.accepted && exists p :: p in w.incoming && p.id == id
  {
    KindWithoutADevice(w, id, k);
    ShowsIff(leq, w, id, k);
  }

  /** Every entry bears a name of its own: a device its own name, and a request the device's name if it has one, else
      the name it came with, else the first seven characters of its id. */
  lemma NamesAreOwn(leq: (string, string) -> bool, w: Input, e: Entry)
    requires IsOrder(leq) && DistinctInput(w) && e in DeriveNetwork(leq, w)
    ensures e.kind != Incoming ==> exists d :: d in w.devices && e.id == d.id && e.name == d.name
    ensures e.kind == Incoming ==>
              exists p :: p in w.incoming && e.id == p.id
                          && ((exists d :: d in w.devices && d.id == p.id && d.name != "" && e.name == d.name)
                              || ((forall d :: d in w.devices && d.id == p.id ==> d.name == "")
                                  && e.name == if p.name != "" then p.name else if |p.id| < 7 then p.id else p.id[..7]))
  {
    SortSorts(leq, Unsorted(w));
    SameMembers(Unsorted(w), DeriveNetwork(leq, w));
    IncomingMembers(w, w.incoming);
    OfKindMembers(w, w.devices, Waiting);
    OfKindMembers(w, w.devices, Connected);
    OfKindMembers(w, w.devices, Offline);
    OfKindMembers(w, w.devices, Discoverable);
    DeviceByIdFinds(w.devices, e.id);
  }
}
