// Per-host load entries of the task queue manager and what admission, charging
// and releasing a task's hosts do to them.
module HostLoads {

  // One entry of the host table. Entries appear the first time a task names
  // the host, or when a load report arrives for it.
  datatype HostLoad = HostLoad(
    running: int,
    limit: int,
    cpu: real,
    mem: real,
    available: bool,
    updatedAt: int)

  type LoadTable = map<string, HostLoad>

  function DefaultLoad(perHost: int, now: int): HostLoad {
    HostLoad(0, perHost, 0.0, 0.0, true, now)
  }

  predicate Refuses(l: HostLoad) {
    !l.available || l.running >= l.limit || l.cpu > 80.0 || l.mem > 80.0
  }

  // Tasks charged to a host; a host without an entry carries none.
  function Charges(loads: LoadTable, h: string): int {
    if h in loads then loads[h].running else 0
  }

  ghost predicate NonNegative(loads: LoadTable) {
    forall h :: h in loads ==> loads[h].running >= 0
  }

  // What admission of a host list means: no known host of the list refuses,
  // and a host seen for the first time is refused only by a limit that admits
  // nothing, and then only at its second occurrence in the list.
  predicate CanExecute(hosts: seq<string>, loads: LoadTable, perHost: int) {
    && (forall k :: 0 <= k < |hosts| && hosts[k] in loads ==> !Refuses(loads[hosts[k]]))
    && (forall j, k :: 0 <= j < k < |hosts| && hosts[j] == hosts[k] && hosts[k] !in loads ==> perHost > 0)
  }

  // Entries for the hosts of the list that had none.
  ghost function WithDefaults(hosts: seq<string>, loads: LoadTable, perHost: int, now: int): LoadTable {
    map h | h in loads.Keys + (set x | x in hosts) ::
      if h in loads then loads[h] else DefaultLoad(perHost, now)
  }

  // How far the admission scan gets: the first host that refuses, or the end.
  ghost function Scanned(hosts: seq<string>, loads: LoadTable, perHost: int): (k: nat)
    ensures k <= |hosts|
    ensures CanExecute(hosts[..k], loads, perHost)
    ensures k < |hosts| ==> !CanExecute(hosts[..k + 1], loads, perHost)
  {
    if hosts == [] then 0
    else
      var n := |hosts| - 1;
      var k := Scanned(hosts[..n], loads, perHost);
      assert hosts[..n][..k] == hosts[..k];
      if k < n then
        assert hosts[..n][..k + 1] == hosts[..k + 1];
        k
      else if CanExecute(hosts, loads, perHost) then
        assert hosts[..|hosts|] == hosts;
        |hosts|
      else
        assert hosts[..n + 1] == hosts;
        n
  }

  // The table after admission: defaults for every host the scan passed.
  ghost function Touched(hosts: seq<string>, loads: LoadTable, perHost: int, now: int): LoadTable {
    WithDefaults(hosts[..Scanned(hosts, loads, perHost)], loads, perHost, now)
  }

  ghost function Base(loads: LoadTable, h: string, perHost: int, now: int): HostLoad {
    if h in loads then loads[h] else DefaultLoad(perHost, now)
  }

  // Each occurrence of a host in the list adds one to its entry.
  ghost function Charged(loads: LoadTable, hosts: seq<string>, perHost: int, now: int): LoadTable {
    map h | h in loads.Keys + (set x | x in hosts) ::
      var b := Base(loads, h, perHost, now);
      if h in hosts then b.(running := b.running + multiset(hosts)[h], updatedAt := now) else b
  }

  // Each occurrence takes one away, never going below zero.
  ghost function Released(loads: LoadTable, hosts: seq<string>, perHost: int, now: int): LoadTable {
    map h | h in loads.Keys + (set x | x in hosts) ::
      var b := Base(loads, h, perHost, now);
      if h in hosts then
        b.(running := if b.running - multiset(hosts)[h] < 0 then 0 else b.running - multiset(hosts)[h],
           updatedAt := now)
      else b
  }

  // One occurrence charged to or released from an entry.
  function Step(l: HostLoad, increment: bool, now: int): HostLoad {
    if increment then l.(running := l.running + 1, updatedAt := now)
    else l.(running := if l.running - 1 < 0 then 0 else l.running - 1, updatedAt := now)
  }

  ghost function Updated(loads: LoadTable, hosts: seq<string>, increment: bool, perHost: int, now: int): LoadTable {
    if increment then Charged(loads, hosts, perHost, now) else Released(loads, hosts, perHost, now)
  }

  lemma UpdatedNone(loads: LoadTable, increment: bool, perHost: int, now: int)
    ensures Updated(loads, [], increment, perHost, now) == loads
  {}

  lemma CountSnoc(hosts: seq<string>, h: string, x: string)
    ensures multiset(hosts + [h])[x] == multiset(hosts)[x] + (if x == h then 1 else 0)
    ensures x in hosts + [h] <==> x in hosts || x == h
  {}

  lemma UpdatedAt(loads: LoadTable, hosts: seq<string>, h: string, increment: bool, perHost: int, now: int, x: string)
    ensures var c := Updated(loads, hosts, increment, perHost, now);
            var d := Updated(loads, hosts + [h], increment, perHost, now);
            && (x in d <==> x in c || x == h)
            && (x in d ==> d[x] == if x == h then Step(Base(c, h, perHost, now), increment, now) else c[x])
  {
    CountSnoc(hosts, h, x);
  }

  // The two tables above, built up one occurrence at a time.
  lemma UpdatedNext(loads: LoadTable, hosts: seq<string>, h: string, increment: bool, perHost: int, now: int)
    ensures var c := Updated(loads, hosts, increment, perHost, now);
            Updated(loads, hosts + [h], increment, perHost, now)
            == c[h := Step(Base(c, h, perHost, now), increment, now)]
  {
    var c := Updated(loads, hosts, increment, perHost, now);
    var d := Updated(loads, hosts + [h], increment, perHost, now);
    forall x
      ensures x in d <==> x in c || x == h
      ensures x in d ==> d[x] == if x == h then Step(Base(c, h, perHost, now), increment, now) else c[x]
    {
      UpdatedAt(loads, hosts, h, increment, perHost, now, x);
    }
  }

  // Two entries that admission and accounting cannot tell apart.
  predicate SameLoad(a: HostLoad, b: HostLoad) {
    a.(updatedAt := 0) == b.(updatedAt := 0)
  }

  // b has the entries of a and default-like ones, up to time stamps.
  ghost predicate SameLoads(a: LoadTable, b: LoadTable, perHost: int) {
    && (forall h :: h in a ==> h in b && SameLoad(a[h], b[h]))
    && (forall h :: h in b && h !in a ==> SameLoad(b[h], DefaultLoad(perHost, 0)))
  }

  // b is at least as loaded as a, host by host.
  ghost predicate Heavier(a: LoadTable, b: LoadTable, perHost: int) {
    && (forall h :: h in a ==>
          h in b && b[h].running >= a[h].running && SameLoad(b[h].(running := 0), a[h].(running := 0)))
    && (forall h :: h in b && h !in a ==>
          b[h].running >= 0 && SameLoad(b[h].(running := 0), DefaultLoad(perHost, 0)))
  }

  lemma HeavierTrans(a: LoadTable, b: LoadTable, c: LoadTable, perHost: int)
    requires Heavier(a, b, perHost) && Heavier(b, c, perHost)
    ensures Heavier(a, c, perHost)
  {}

  // Admission is antitone in the load: a list refused under a is refused under
  // anything heavier.
  lemma RefusalIsStable(hosts: seq<string>, a: LoadTable, b: LoadTable, perHost: int)
    requires Heavier(a, b, perHost)
    requires !CanExecute(hosts, a, perHost)
    ensures !CanExecute(hosts, b, perHost)
  {}

  lemma TouchedIsSame(hosts: seq<string>, loads: LoadTable, perHost: int, now: int)
    ensures SameLoads(loads, Touched(hosts, loads, perHost, now), perHost)
    ensures Heavier(loads, Touched(hosts, loads, perHost, now), perHost)
    ensures NonNegative(loads) ==> NonNegative(Touched(hosts, loads, perHost, now))
    ensures forall h :: Charges(Touched(hosts, loads, perHost, now), h) == Charges(loads, h)
  {}

  lemma PrefixAdmitted(hosts: seq<string>, loads: LoadTable, perHost: int, k: nat)
    requires k <= |hosts| && CanExecute(hosts, loads, perHost)
    ensures CanExecute(hosts[..k], loads, perHost)
  {}

  // The admission scan reaches the end exactly when it admits.
  lemma ScanReachesEnd(hosts: seq<string>, loads: LoadTable, perHost: int)
    ensures CanExecute(hosts, loads, perHost) <==> Scanned(hosts, loads, perHost) == |hosts|
  {
    var k := Scanned(hosts, loads, perHost);
    if k == |hosts| {
      assert hosts[..k] == hosts;
    } else if CanExecute(hosts, loads, perHost) {
      PrefixAdmitted(hosts, loads, perHost, k + 1);
      assert false;
    }
  }

  lemma ChargedCharges(loads: LoadTable, hosts: seq<string>, perHost: int, now: int)
    ensures forall h :: Charges(Charged(loads, hosts, perHost, now), h) == Charges(loads, h) + multiset(hosts)[h]
    ensures Heavier(loads, Charged(loads, hosts, perHost, now), perHost)
    ensures NonNegative(loads) ==> NonNegative(Charged(loads, hosts, perHost, now))
  {}

  lemma ReleasedCharges(loads: LoadTable, hosts: seq<string>, perHost: int, now: int)
    requires NonNegative(loads)
    ensures forall h ::
              Charges(Released(loads, hosts, perHost, now), h)
              == (if multiset(hosts)[h] <= Charges(loads, h) then Charges(loads, h) - multiset(hosts)[h] else 0)
    ensures NonNegative(Released(loads, hosts, perHost, now))
  {}

  lemma ReleasedBack(loads: LoadTable, hosts: seq<string>, perHost: int, t0: int, t1: int, h: string)
    requires NonNegative(loads)
    ensures var back := Released(Charged(loads, hosts, perHost, t0), hosts, perHost, t1);
            && (h in loads ==> h in back && SameLoad(loads[h], back[h]))
            && (h in back && h !in loads ==> SameLoad(back[h], DefaultLoad(perHost, 0)))
  {}

  // Releasing what was just charged is an exact inverse: the clamp at zero
  // never fires and every entry is back to what it was, up to its time stamp.
  lemma ReleaseUndoesCharge(loads: LoadTable, hosts: seq<string>, perHost: int, t0: int, t1: int)
    requires NonNegative(loads)
    ensures SameLoads(loads, Released(Charged(loads, hosts, perHost, t0), hosts, perHost, t1), perHost)
    ensures NonNegative(Released(Charged(loads, hosts, perHost, t0), hosts, perHost, t1))
  {
    ChargedCharges(loads, hosts, perHost, t0);
    ReleasedCharges(Charged(loads, hosts, perHost, t0), hosts, perHost, t1);
    forall h
      ensures var back := Released(Charged(loads, hosts, perHost, t0), hosts, perHost, t1);
              && (h in loads ==> h in back && SameLoad(loads[h], back[h]))
              && (h in back && h !in loads ==> SameLoad(back[h], DefaultLoad(perHost, 0)))
    {
      ReleasedBack(loads, hosts, perHost, t0, t1, h);
    }
  }

}
