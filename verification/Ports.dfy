/** Port allocation inside one slot window, and the windows of different slots
    (execution/plan.rs `bind_slot`, nixfied-manifest/src/validation.rs). */
module Ports {
  import opened Wrappers
  import opened Graphs
  import opened Ids
  import opened Programs

  type Allocation = map<ServiceId, map<EndpointId, u16>>

  const MAX_PORT := 0xFFFF

  predicate KnownServices(p: Program, ids: seq<ServiceId>) {
    forall id <- ids :: id in p.services
  }

  /** Endpoints of the listed services, all together. */
  function EndpointTotal(p: Program, ids: seq<ServiceId>): nat
    requires KnownServices(p, ids)
  {
    if ids == [] then 0
    else EndpointTotal(p, ids[..|ids| - 1]) + |p.services[ids[|ids| - 1]].endpoints|
  }

  lemma {:induction false} EndpointTotalNext(p: Program, ids: seq<ServiceId>, i: nat)
    requires KnownServices(p, ids) && i < |ids|
    ensures KnownServices(p, ids[..i]) && KnownServices(p, ids[..i + 1])
    ensures EndpointTotal(p, ids[..i + 1]) == EndpointTotal(p, ids[..i]) + |p.services[ids[i]].endpoints|
  {
    assert ids[..i + 1][..i] == ids[..i];
  }

  lemma {:induction false} EndpointTotalGrows(p: Program, ids: seq<ServiceId>, i: nat, j: nat)
    requires KnownServices(p, ids) && i <= j <= |ids|
    ensures KnownServices(p, ids[..i]) && KnownServices(p, ids[..j])
    ensures EndpointTotal(p, ids[..i]) <= EndpointTotal(p, ids[..j])
    decreases j
  {
    if i < j {
      EndpointTotalGrows(p, ids, i, j - 1);
      EndpointTotalNext(p, ids, j - 1);
    }
  }

  lemma {:induction false} WithoutOne<T>(s: seq<T>, j: nat)
    requires j < |s|
    ensures multiset(s[..j] + s[j + 1..]) == multiset(s) - multiset{s[j]}
  {
    assert s == s[..j] + [s[j]] + s[j + 1..];
  }

  /** Where the last element of one ordering stands in another. */
  lemma {:induction false} SamePlace<T>(a: seq<T>, b: seq<T>) returns (j: nat)
    requires a != [] && multiset(a) == multiset(b)
    ensures j < |b| && b[j] == a[|a| - 1] && multiset(a[..|a| - 1]) == multiset(b[..j] + b[j + 1..])
  {
    var last := a[|a| - 1];
    assert last in multiset(b);
    j :| 0 <= j < |b| && b[j] == last;
    WithoutOne(a, |a| - 1);
    WithoutOne(b, j);
    assert a[..|a| - 1] + [] == a[..|a| - 1];
  }

  /** The same services in another order have the same endpoint total. */
  lemma {:induction false} EndpointTotalPermutes(p: Program, a: seq<ServiceId>, b: seq<ServiceId>)
    requires KnownServices(p, a) && multiset(a) == multiset(b)
    ensures KnownServices(p, b) && EndpointTotal(p, a) == EndpointTotal(p, b)
    decreases |a|
  {
    forall id <- b ensures id in p.services { assert id in multiset(a); }
    if a == [] {
      assert |multiset(b)| == 0;
    } else {
      var last := a[|a| - 1];
      var j := SamePlace(a, b);
      var rest := b[..j] + b[j + 1..];
      EndpointTotalPermutes(p, a[..|a| - 1], rest);
      EndpointTotalWithout(p, b, j);
    }
  }

  lemma {:induction false} EndpointTotalWithout(p: Program, ids: seq<ServiceId>, j: nat)
    requires KnownServices(p, ids) && j < |ids|
    ensures KnownServices(p, ids[..j] + ids[j + 1..])
    ensures EndpointTotal(p, ids) == EndpointTotal(p, ids[..j] + ids[j + 1..]) + |p.services[ids[j]].endpoints|
    decreases |ids|
  {
    var last := |ids| - 1;
    var rest := ids[..j] + ids[j + 1..];
    if j == last {
      assert rest == ids[..last];
    } else {
      EndpointTotalWithout(p, ids[..last], j);
      assert rest[..|rest| - 1] == ids[..last][..j] + ids[..last][j + 1..] && rest[|rest| - 1] == ids[last];
    }
  }

  // ---- Allocation ----

  function SaturatingNext(port: u16): u16 {
    if port < MAX_PORT then port + 1 else MAX_PORT
  }

  function Capped(n: nat): u16 {
    if n < MAX_PORT then n else MAX_PORT
  }

  /** Where the cursor stands before the `n`-th service. */
  function CursorAt(p: Program, ids: seq<ServiceId>, start: u16, n: nat): u16
    requires KnownServices(p, ids) && n <= |ids|
  {
    Capped(start + EndpointTotal(p, ids[..n]))
  }

  lemma {:induction false} CursorNext(p: Program, ids: seq<ServiceId>, start: u16, n: nat)
    requires KnownServices(p, ids) && n < |ids|
    ensures CursorAt(p, ids, start, n + 1) == Capped(CursorAt(p, ids, start, n) + |p.services[ids[n]].endpoints|)
  {
    EndpointTotalNext(p, ids, n);
  }

  /** The port of endpoint `k` of the `i`-th service in id order. */
  function PortAt(p: Program, ids: seq<ServiceId>, start: u16, i: nat, k: nat): u16
    requires KnownServices(p, ids) && i < |ids|
  {
    EndpointTotalNext(p, ids, i);
    Capped(start + EndpointTotal(p, ids[..i]) + k)
  }

  ghost predicate Allocates(p: Program, ids: seq<ServiceId>, start: u16, ports: Allocation) {
    && KnownServices(p, ids)
    && ports.Keys == Elements(ids)
    && forall i :: 0 <= i < |ids| ==> BlockAt(p, ids, start, i, ports[ids[i]])
  }

  /** One service's endpoints, on consecutive ports behind the earlier services. */
  ghost predicate BlockAt(p: Program, ids: seq<ServiceId>, start: u16, i: nat, block: map<EndpointId, u16>)
    requires KnownServices(p, ids) && i < |ids|
  {
    var endpoints := p.services[ids[i]].endpoints;
    && block.Keys == Elements(endpoints)
    && forall k :: 0 <= k < |endpoints| ==> block[endpoints[k]] == PortAt(p, ids, start, i, k)
  }

  method AllocateBlock(endpoints: seq<EndpointId>, from: u16) returns (block: map<EndpointId, u16>, cursor: u16)
    requires forall i, j :: 0 <= i < j < |endpoints| ==> endpoints[i] != endpoints[j]
    ensures block.Keys == Elements(endpoints) && cursor == Capped(from + |endpoints|)
    ensures forall k :: 0 <= k < |endpoints| ==> block[endpoints[k]] == Capped(from + k)
  {
    block, cursor := map[], from;
    for k := 0 to |endpoints|
      invariant cursor == Capped(from + k)
      invariant block.Keys == Elements(endpoints[..k])
      invariant forall j :: 0 <= j < k ==> endpoints[j] in block && block[endpoints[j]] == Capped(from + j)
    {
      assert endpoints[..k + 1] == endpoints[..k] + [endpoints[k]];
      block := block[endpoints[k] := cursor];
      cursor := SaturatingNext(cursor);
    }
    assert endpoints[..|endpoints|] == endpoints;
  }

  /** The first `n` services of `ids` hold their blocks and nobody else holds one. */
  ghost predicate AllocatesFirst(p: Program, ids: seq<ServiceId>, start: u16, n: nat, ports: Allocation)
    requires KnownServices(p, ids) && n <= |ids|
  {
    && ports.Keys == Elements(ids[..n])
    && forall i :: 0 <= i < n ==> BlockAt(p, ids, start, i, ports[ids[i]])
  }

  lemma {:induction false} BlockPlaced(p: Program, ids: seq<ServiceId>, start: u16, n: nat,
    ports: Allocation, from: u16, block: map<EndpointId, u16>)
    requires KnownServices(p, ids) && n < |ids| && KnownServices(p, ids[..n])
    requires forall i, j :: 0 <= i < j < |ids| ==> ids[i] != ids[j]
    requires AllocatesFirst(p, ids, start, n, ports)
    requires from == CursorAt(p, ids, start, n)
    requires block.Keys == Elements(p.services[ids[n]].endpoints)
    requires forall k :: 0 <= k < |p.services[ids[n]].endpoints| ==>
      block[p.services[ids[n]].endpoints[k]] == Capped(from + k)
    ensures AllocatesFirst(p, ids, start, n + 1, ports[ids[n] := block])
  {
    assert BlockAt(p, ids, start, n, block);
    assert ids[..n + 1] == ids[..n] + [ids[n]];
  }

  method AllocateService(p: Program, ids: seq<ServiceId>, ghost start: u16, n: nat, before: Allocation, from: u16)
    returns (ports: Allocation, cursor: u16)
    requires Validated(p) && KnownServices(p, ids) && n < |ids|
    requires forall i, j :: 0 <= i < j < |ids| ==> ids[i] != ids[j]
    requires AllocatesFirst(p, ids, start, n, before) && from == CursorAt(p, ids, start, n)
    ensures AllocatesFirst(p, ids, start, n + 1, ports) && cursor == CursorAt(p, ids, start, n + 1)
  {
    var block;
    block, cursor := AllocateBlock(p.services[ids[n]].endpoints, from);
    BlockPlaced(p, ids, start, n, before, from, block);
    CursorNext(p, ids, start, n);
    ports := before[ids[n] := block];
  }

  method AllocatePorts(p: Program, ids: seq<ServiceId>, start: u16) returns (ports: Allocation)
    requires Validated(p) && KnownServices(p, ids) && Ascending(ids)
    ensures Allocates(p, ids, start, ports)
  {
    AscendingDistinct(ids);
    ports := map[];
    var cursor := start;
    for i := 0 to |ids|
      invariant cursor == CursorAt(p, ids, start, i)
      invariant AllocatesFirst(p, ids, start, i, ports)
    {
      ports, cursor := AllocateService(p, ids, start, i, ports, cursor);
    }
    assert ids[..|ids|] == ids;
  }

  /** Within capacity the cursor never saturates before the last port is used. */
  lemma {:induction false} PortInWindow(p: Program, ids: seq<ServiceId>, window: PortWindow, i: nat, k: nat)
    requires KnownServices(p, ids) && i < |ids| && k < |p.services[ids[i]].endpoints|
    requires window.Valid() && EndpointTotal(p, ids) <= window.Capacity()
    ensures KnownServices(p, ids[..i])
    ensures PortAt(p, ids, window.start, i, k) == window.start + EndpointTotal(p, ids[..i]) + k <= window.end
  {
    EndpointTotalNext(p, ids, i);
    EndpointTotalGrows(p, ids, i + 1, |ids|);
    assert ids[..|ids|] == ids;
  }

  lemma {:induction false} EarlierServiceLowerPorts(p: Program, ids: seq<ServiceId>, i: nat, k: nat, j: nat)
    requires KnownServices(p, ids) && i < j < |ids| && k < |p.services[ids[i]].endpoints|
    ensures KnownServices(p, ids[..i]) && KnownServices(p, ids[..j])
    ensures EndpointTotal(p, ids[..i]) + k < EndpointTotal(p, ids[..j])
  {
    EndpointTotalNext(p, ids, i);
    EndpointTotalGrows(p, ids, i + 1, j);
  }

  ghost predicate Allocated(ports: Allocation, service: ServiceId, endpoint: EndpointId) {
    service in ports && endpoint in ports[service]
  }

  /** No two endpoints share a port, and every port lies in the window. */
  lemma {:induction false} PortsNeverAlias(
    p: Program, ids: seq<ServiceId>, window: PortWindow, ports: Allocation,
    s: ServiceId, e: EndpointId, s': ServiceId, e': EndpointId)
    requires Allocates(p, ids, window.start, ports) && window.Valid() && EndpointTotal(p, ids) <= window.Capacity()
    requires Allocated(ports, s, e) && Allocated(ports, s', e')
    ensures window.start <= ports[s][e] <= window.end
    ensures (s, e) != (s', e') ==> ports[s][e] != ports[s'][e']
  {
    var i, k := PositionOf(p, ids, window.start, ports, s, e);
    var i', k' := PositionOf(p, ids, window.start, ports, s', e');
    PortInWindow(p, ids, window, i, k);
    PortInWindow(p, ids, window, i', k');
    if i < i' { EarlierServiceLowerPorts(p, ids, i, k, i'); }
    if i' < i { EarlierServiceLowerPorts(p, ids, i', k', i); }
  }

  lemma {:induction false} PositionOf(
      p: Program, ids: seq<ServiceId>, start: u16, ports: Allocation, s: ServiceId, e: EndpointId)
    returns (i: nat, k: nat)
    requires Allocates(p, ids, start, ports) && Allocated(ports, s, e)
    ensures i < |ids| && ids[i] == s && k < |p.services[s].endpoints| && p.services[s].endpoints[k] == e
    ensures ports[s][e] == PortAt(p, ids, start, i, k)
  {
    assert s in Elements(ids);
    i :| 0 <= i < |ids| && ids[i] == s;
    assert BlockAt(p, ids, start, i, ports[ids[i]]);
    assert e in Elements(p.services[s].endpoints);
    k :| 0 <= k < |p.services[s].endpoints| && p.services[s].endpoints[k] == e;
  }

  /** The id order of the services alone determines every port. */
  lemma {:induction false} AllocationUnique(p: Program, ids: seq<ServiceId>, start: u16, a: Allocation, b: Allocation)
    requires Allocates(p, ids, start, a) && Allocates(p, ids, start, b)
    ensures a == b
  {
    forall s | s in a ensures a[s] == b[s] {
      assert s in Elements(ids);
      var i :| 0 <= i < |ids| && ids[i] == s;
      assert BlockAt(p, ids, start, i, a[s]) && BlockAt(p, ids, start, i, b[s]);
      forall e | e in a[s] ensures a[s][e] == b[s][e] {
        var j, k := PositionOf(p, ids, start, a, s, e);
        assert b[s][p.services[s].endpoints[k]] == PortAt(p, ids, start, i, k);
        assert a[s][p.services[s].endpoints[k]] == PortAt(p, ids, start, i, k);
      }
    }
  }

  // ---- Slot windows ----

  predicate Separate(a: PortWindow, b: PortWindow) {
    a.end < b.start || b.end < a.start
  }

  predicate Within(window: PortWindow, port: int) {
    window.start <= port <= window.end
  }

  /** Windows are separate exactly when no port lies in both; they may be adjacent. */
  lemma {:induction false} SeparateMeans(a: PortWindow, b: PortWindow)
    requires a.Valid() && b.Valid()
    ensures Separate(a, b) <==> forall port: int :: !(Within(a, port) && Within(b, port))
  {
    if !Separate(a, b) {
      var port: int := if a.start < b.start then b.start else a.start;
      assert Within(a, port) && Within(b, port);
    }
  }

  ghost predicate PairwiseSeparate(windows: seq<PortWindow>) {
    forall i, j :: 0 <= i < j < |windows| ==> Separate(windows[i], windows[j])
  }

  ghost predicate SortedByStart(windows: seq<PortWindow>) {
    forall i, j :: 0 <= i < j < |windows| ==> windows[i].start <= windows[j].start
  }

  method InsertByStart(sorted: seq<PortWindow>, w: PortWindow) returns (at: nat)
    requires SortedByStart(sorted)
    ensures at <= |sorted| && SortedByStart(sorted[..at] + [w] + sorted[at..])
  {
    at := 0;
    while at < |sorted| && sorted[at].start <= w.start
      invariant at <= |sorted| && forall i :: 0 <= i < at ==> sorted[i].start <= w.start
    {
      at := at + 1;
    }
  }

  ghost predicate SameWindows(a: seq<PortWindow>, b: seq<PortWindow>) {
    multiset(a) == multiset(b) && (PairwiseSeparate(a) <==> PairwiseSeparate(b))
  }

  /** Sorting by start, keeping which windows there are and how they relate. */
  method SortByStart(windows: seq<PortWindow>) returns (sorted: seq<PortWindow>)
    ensures SortedByStart(sorted) && SameWindows(sorted, windows)
  {
    sorted := [];
    for n := 0 to |windows|
      invariant SortedByStart(sorted) && SameWindows(sorted, windows[..n])
    {
      var at := InsertByStart(sorted, windows[n]);
      InsertRelates(sorted, at, windows[..n], windows[n]);
      assert windows[..n + 1] == windows[..n] + [windows[n]];
      sorted := sorted[..at] + [windows[n]] + sorted[at..];
    }
    assert windows[..|windows|] == windows;
  }

  lemma {:induction false} InsertRelates(sorted: seq<PortWindow>, at: nat, given: seq<PortWindow>, w: PortWindow)
    requires at <= |sorted| && SameWindows(sorted, given)
    ensures SameWindows(sorted[..at] + [w] + sorted[at..], given + [w])
  {
    assert sorted == sorted[..at] + sorted[at..];
    InsertSeparates(sorted, at, w);
    InsertSeparates(given, |given|, w);
    assert given[..|given|] + [w] + given[|given|..] == given + [w];
    assert forall x :: x in sorted <==> x in given by {
      forall x ensures x in sorted <==> x in given { assert x in multiset(sorted) <==> x in multiset(given); }
    }
  }

  lemma {:induction false} InsertSeparates(s: seq<PortWindow>, at: nat, w: PortWindow)
    requires at <= |s|
    ensures PairwiseSeparate(s[..at] + [w] + s[at..]) <==> PairwiseSeparate(s) && forall x <- s :: Separate(x, w)
  {
    var longer := s[..at] + [w] + s[at..];
    assert forall i :: 0 <= i < |s| ==> s[i] == longer[if i < at then i else i + 1];
    assert longer[at] == w;
    if PairwiseSeparate(longer) {
      forall x <- s ensures Separate(x, w) {
        var i :| 0 <= i < |s| && s[i] == x;
      }
    }
    if PairwiseSeparate(s) && forall x <- s :: Separate(x, w) {
      forall i, j | 0 <= i < j < |longer| ensures Separate(longer[i], longer[j]) {
        if i < at { assert longer[i] == s[i] && s[i] in s; } else if i > at { assert longer[i] == s[i - 1]; }
        if j < at { assert longer[j] == s[j]; } else if j > at { assert longer[j] == s[j - 1] && s[j - 1] in s; }
      }
    }
  }

  predicate ClearOfPrevious(windows: seq<PortWindow>, i: nat)
    requires 0 < i < |windows|
  {
    windows[i - 1].end < windows[i].start
  }

  /** Among sorted windows, neighbours that do not touch mean no two overlap. */
  lemma {:induction false} NeighboursSuffice(windows: seq<PortWindow>)
    requires SortedByStart(windows) && forall w <- windows :: w.Valid()
    ensures PairwiseSeparate(windows) <==> forall i :: 0 < i < |windows| ==> ClearOfPrevious(windows, i)
  {
    if forall i :: 0 < i < |windows| ==> ClearOfPrevious(windows, i) {
      forall i, j | 0 <= i < j < |windows| ensures Separate(windows[i], windows[j]) {
        assert ClearOfPrevious(windows, i + 1);
        assert windows[i + 1].start <= windows[j].start;
      }
    }
    if PairwiseSeparate(windows) {
      forall i | 0 < i < |windows| ensures ClearOfPrevious(windows, i) {
        assert Separate(windows[i - 1], windows[i]) && windows[i].Valid();
      }
    }
  }

  datatype Placement = Placement(slot: nat, candidatePorts: PortWindow)

  datatype PlacementError = WrongKeys | WrongSlot(slot: nat) | BadWindow(slot: nat) | Overlapping

  function SlotRange(min: nat, max: nat): (slots: set<nat>)
    requires min <= max + 1
    ensures forall slot :: slot in slots <==> min <= slot <= max
    decreases max + 1 - min
  {
    if min > max then {} else {min} + SlotRange(min + 1, max)
  }

  ghost predicate ValidPlacements(min: nat, max: nat, placements: map<nat, Placement>) {
    && (forall slot :: slot in placements <==> min <= slot <= max)
    && (forall slot :: slot in placements ==>
          placements[slot].slot == slot && placements[slot].candidatePorts.Valid())
    && (forall a, b :: a in placements && b in placements && a < b ==>
          Separate(placements[a].candidatePorts, placements[b].candidatePorts))
  }

  ghost predicate PlacedAt(placements: map<nat, Placement>, slot: nat, window: PortWindow) {
    slot in placements && placements[slot] == Placement(slot, window) && window.Valid()
  }

  /** No port lies in the windows of two slots. */
  ghost predicate NoPortShared(placements: map<nat, Placement>) {
    forall a, b, port: int :: a in placements && b in placements && a < b ==>
      !(Within(placements[a].candidatePorts, port) && Within(placements[b].candidatePorts, port))
  }

  lemma {:induction false} ValidSharesNoPort(min: nat, max: nat, placements: map<nat, Placement>)
    requires min <= max
    ensures ValidPlacements(min, max, placements) <==>
      && placements.Keys == SlotRange(min, max)
      && (forall slot :: slot in placements ==>
            var window := placements[slot].candidatePorts;
            placements[slot].slot == slot && 0 < window.start <= window.end)
      && NoPortShared(placements)
  {
    forall a, b | a in placements && b in placements && a < b
        && placements[a].candidatePorts.Valid() && placements[b].candidatePorts.Valid()
      ensures Separate(placements[a].candidatePorts, placements[b].candidatePorts) <==>
        forall port: int :: !(Within(placements[a].candidatePorts, port) && Within(placements[b].candidatePorts, port))
    {
      SeparateMeans(placements[a].candidatePorts, placements[b].candidatePorts);
    }
  }

  /** Accepts exactly the placements whose slots cover the policy range and
      whose windows are nonempty and never overlap. */
  method ValidateSlotPlacements(min: nat, max: nat, placements: map<nat, Placement>)
    returns (r: Result<(), PlacementError>)
    requires min <= max
    ensures r.Ok? <==> ValidPlacements(min, max, placements)
    ensures r.Ok? <==>
      && placements.Keys == SlotRange(min, max)
      && (forall slot :: slot in placements ==>
            var window := placements[slot].candidatePorts;
            placements[slot].slot == slot && 0 < window.start <= window.end)
      && NoPortShared(placements)
  {
    ValidSharesNoPort(min, max, placements);
    if placements.Keys != SlotRange(min, max) {
      return Err(WrongKeys);
    }
    var windows: seq<PortWindow> := [];
    for slot := min to max + 1
      invariant |windows| == slot - min
      invariant forall k :: 0 <= k < |windows| ==> PlacedAt(placements, min + k, windows[k])
    {
      assert slot in placements;
      var placement := placements[slot];
      if placement.slot != slot { return Err(WrongSlot(slot)); }
      if !placement.candidatePorts.Valid() { return Err(BadWindow(slot)); }
      windows := windows + [placement.candidatePorts];
    }
    WindowsBySlot(min, max, placements, windows);
    var sorted := SortByStart(windows);
    forall w <- sorted ensures w.Valid() { assert w in multiset(windows); }
    NeighboursSuffice(sorted);
    for i := 1 to |sorted|
      invariant forall j :: 0 < j < i ==> ClearOfPrevious(sorted, j)
    {
      if !ClearOfPrevious(sorted, i) {
        return Err(Overlapping);
      }
    }
    return Ok(());
  }

  lemma {:induction false} WindowsBySlot(min: nat, max: nat, placements: map<nat, Placement>, windows: seq<PortWindow>)
    requires min <= max && |windows| == max + 1 - min && placements.Keys == SlotRange(min, max)
    requires forall k :: 0 <= k < |windows| ==> PlacedAt(placements, min + k, windows[k])
    ensures PairwiseSeparate(windows) <==> ValidPlacements(min, max, placements)
  {
    forall slot | slot in placements ensures PlacedAt(placements, slot, windows[slot - min]) {
      assert PlacedAt(placements, min + (slot - min), windows[slot - min]);
    }
    forall i, j | 0 <= i < j < |windows| && ValidPlacements(min, max, placements)
      ensures Separate(windows[i], windows[j])
    {
      assert PlacedAt(placements, min + i, windows[i]) && PlacedAt(placements, min + j, windows[j]);
    }
  }

  /** The window each slot is lowered to. */
  function WindowsOf(placements: map<nat, Placement>): map<nat, PortWindow> {
    map slot | slot in placements :: placements[slot].candidatePorts
  }

  /** The windows keyed by what each placement says its slot is. */
  method LowerWindows(min: nat, max: nat, placements: map<nat, Placement>) returns (windows: map<nat, PortWindow>)
    requires min <= max && ValidPlacements(min, max, placements)
    ensures windows == WindowsOf(placements)
  {
    windows := map[];
    for slot := min to max + 1
      invariant windows == map s | s in placements && s < slot :: placements[s].candidatePorts
    {
      assert slot in placements;
      windows := windows[placements[slot].slot := placements[slot].candidatePorts];
    }
  }
}
