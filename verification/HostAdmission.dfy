// Admission of hosts across two stores: the table of hosts in the database and
// the list of pending hosts in the cache server, whose accesses may fail.
module HostAdmission {
  datatype Info = Info(hostname: string, ip: string, os: string, tags: map<string, string>)

  datatype AdmissionStatus = PendingHost | ApprovedHost | RejectedHost

  datatype Host = Host(status: AdmissionStatus, info: Info, lastSeen: int)

  datatype Waiting = Waiting(info: Info, firstSeen: int, lastSeen: int)

  datatype Stores = Stores(hosts: map<string, Host>, pending: map<string, Waiting>)

  // Which accesses to the pending list succeed in one operation: the first
  // read, a second read, a write, a deletion.
  datatype Access = Access(look: bool, read: bool, write: bool, delete: bool)

  predicate Approved(s: Stores, id: string) {
    id in s.hosts && s.hosts[id].status.ApprovedHost?
  }

  // ----- The operations -----

  function Register(s: Stores, id: string, info: Info, now: int, a: Access): Stores {
    if Approved(s, id) then s.(hosts := s.hosts[id := s.hosts[id].(info := info, lastSeen := now)])
    else if a.look && id in s.pending then
      if a.read && a.write then s.(pending := s.pending[id := s.pending[id].(info := info, lastSeen := now)]) else s
    else if a.write then s.(pending := s.pending[id := Waiting(info, now, now)])
    else s
  }

  predicate CanApprove(s: Stores, id: string, a: Access) {
    a.read && id in s.pending
  }

  function Approve(s: Stores, id: string, a: Access): Stores {
    if !CanApprove(s, id, a) then s
    else
      var host := if id in s.hosts then s.hosts[id].(status := ApprovedHost)
                  else Host(ApprovedHost, s.pending[id].info, s.pending[id].lastSeen);
      Stores(s.hosts[id := host], if a.delete then s.pending - {id} else s.pending)
  }

  function Reject(s: Stores, id: string, a: Access): Stores {
    if a.read && id in s.pending && a.delete then s.(pending := s.pending - {id}) else s
  }

  function DeleteHost(s: Stores, id: string): Stores {
    s.(hosts := s.hosts - {id})
  }

  function UpdateHost(s: Stores, id: string, info: Info, now: int): Stores {
    if id in s.hosts then s.(hosts := s.hosts[id := s.hosts[id].(info := info, lastSeen := now)]) else s
  }

  function Report(s: Stores, id: string, ip: string, tags: map<string, string>, now: int): Stores {
    if !Approved(s, id) then s
    else
      var h := s.hosts[id];
      var info := h.info.(ip := if ip != "" then ip else h.info.ip, tags := h.info.tags + tags);
      s.(hosts := s.hosts[id := h.(info := info, lastSeen := now)])
  }

  // Deleting and updating a host change its record only; an update keeps its
  // admission.
  lemma TableColumns(s: Stores, id: string, info: Info, now: int)
    ensures DeleteHost(s, id) == s.(hosts := s.hosts - {id})
    ensures var d := UpdateHost(s, id, info, now);
            && d.pending == s.pending && d.hosts.Keys == s.hosts.Keys
            && (forall h :: h in s.hosts && h != id ==> d.hosts[h] == s.hosts[h])
            && (id in s.hosts ==> d.hosts[id].status == s.hosts[id].status
                                  && d.hosts[id].info == info && d.hosts[id].lastSeen == now)
  {}

  // ----- Runs -----

  datatype Event =
    | Registered(id: string, info: Info, now: int, access: Access)
    | Admitted(id: string, access: Access)
    | Turned(id: string, access: Access)
    | Deleted(id: string)
    | Changed(id: string, info: Info, now: int)
    | Reported(id: string, ip: string, tags: map<string, string>, now: int)

  function Next(s: Stores, e: Event): Stores {
    match e
    case Registered(id, info, now, a) => Register(s, id, info, now, a)
    case Admitted(id, a) => Approve(s, id, a)
    case Turned(id, a) => Reject(s, id, a)
    case Deleted(id) => DeleteHost(s, id)
    case Changed(id, info, now) => UpdateHost(s, id, info, now)
    case Reported(id, ip, tags, now) => Report(s, id, ip, tags, now)
  }

  function After(s: Stores, es: seq<Event>): Stores {
    if es == [] then s else Next(After(s, es[..|es| - 1]), es[|es| - 1])
  }

  // The event at i approves the host.
  ghost predicate ApprovesAt(s: Stores, es: seq<Event>, i: nat, id: string)
    requires i < |es|
  {
    es[i].Admitted? && es[i].id == id && CanApprove(After(s, es[..i]), id, es[i].access)
  }

  ghost predicate NotDeletedFrom(es: seq<Event>, i: nat, id: string) {
    forall j :: i <= j < |es| ==> es[j] != Deleted(id)
  }

  lemma StepApproves(s: Stores, e: Event, id: string)
    ensures Approved(Next(s, e), id) <==>
            || (e.Admitted? && e.id == id && CanApprove(s, id, e.access))
            || (Approved(s, id) && e != Deleted(id))
  {}

  ghost predicate ApprovedSince(s: Stores, es: seq<Event>, id: string) {
    exists i :: 0 <= i < |es| && ApprovesAt(s, es, i, id) && NotDeletedFrom(es, i + 1, id)
  }

  lemma OneMoreForDeletion(es: seq<Event>, n: nat, i: nat, id: string)
    requires n == |es| - 1 && i <= n
    ensures NotDeletedFrom(es, i, id) <==> NotDeletedFrom(es[..n], i, id) && es[n] != Deleted(id)
  {
    if NotDeletedFrom(es[..n], i, id) && es[n] != Deleted(id) {
      forall j | i <= j < |es| ensures es[j] != Deleted(id) {
        if j < n { assert es[..n][j] == es[j]; }
      }
    }
  }

  lemma OneMoreForApproval(s: Stores, es: seq<Event>, n: nat, id: string)
    requires n == |es| - 1
    ensures ApprovedSince(s, es, id) <==>
            ApprovesAt(s, es, n, id) || (ApprovedSince(s, es[..n], id) && es[n] != Deleted(id))
  {
    var front := es[..n];
    forall i | 0 <= i < n
      ensures ApprovesAt(s, front, i, id) == ApprovesAt(s, es, i, id)
      ensures NotDeletedFrom(es, i + 1, id) <==> NotDeletedFrom(front, i + 1, id) && es[n] != Deleted(id)
    {
      assert front[..i] == es[..i];
      OneMoreForDeletion(es, n, i + 1, id);
    }
    assert NotDeletedFrom(es, n + 1, id);
  }

  // After every run a host is approved exactly if some successful approval of
  // it, or its being approved at the start, has not been followed by its
  // deletion.
  lemma {:induction false} ApprovedExactlyInEveryRun(s: Stores, es: seq<Event>, id: string)
    ensures Approved(After(s, es), id) <==> (Approved(s, id) && NotDeletedFrom(es, 0, id)) || ApprovedSince(s, es, id)
  {
    if es != [] {
      var n := |es| - 1;
      ApprovedExactlyInEveryRun(s, es[..n], id);
      StepApproves(After(s, es[..n]), es[n], id);
      OneMoreForDeletion(es, n, 0, id);
      OneMoreForApproval(s, es, n, id);
    }
  }

  // ----- Pending and approved -----

  ghost predicate Disjoint(s: Stores) {
    forall id :: id in s.pending ==> !Approved(s, id)
  }

  // The one step that can leave a host both pending and approved is an
  // approval that fails to delete the pending entry.
  lemma StaysDisjointExactly(s: Stores, e: Event)
    requires Disjoint(s)
    ensures Disjoint(Next(s, e)) <==> !(e.Admitted? && CanApprove(s, e.id, e.access) && !e.access.delete)
  {
    if e.Admitted? && CanApprove(s, e.id, e.access) && !e.access.delete {
      assert e.id in Next(s, e).pending && Approved(Next(s, e), e.id);
    }
  }

  lemma {:induction false} DisjointInEveryRun(s: Stores, es: seq<Event>)
    requires Disjoint(s)
    requires forall e :: e in es && e.Admitted? ==> e.access.delete
    ensures Disjoint(After(s, es))
  {
    if es != [] {
      var n := |es| - 1;
      DisjointInEveryRun(s, es[..n]);
      assert es[n] in es;
      StaysDisjointExactly(After(s, es[..n]), es[n]);
    }
  }

  // ----- First seen -----

  // A registration that cannot read the pending list but can write to it.
  predicate Forgets(s: Stores, e: Event, id: string) {
    e.Registered? && e.id == id && !Approved(s, id) && !e.access.look && e.access.write
  }

  lemma StepFirstSeen(s: Stores, e: Event, id: string)
    requires id in s.pending && id in Next(s, e).pending
    ensures Next(s, e).pending[id].firstSeen == if Forgets(s, e, id) then e.now else s.pending[id].firstSeen
  {}

  // The registration at i of a host that stays pending is blind.
  ghost predicate BlindAt(s: Stores, es: seq<Event>, i: nat, id: string)
    requires i < |es|
  {
    Forgets(After(s, es[..i]), es[i], id)
  }

  ghost predicate StaysPending(s: Stores, es: seq<Event>, id: string) {
    forall i :: 0 <= i <= |es| ==> id in After(s, es[..i]).pending
  }

  lemma {:induction false} FirstSeenSince(s: Stores, es: seq<Event>, k: nat, id: string)
    requires k <= |es| && StaysPending(s, es, id)
    requires forall i :: k <= i < |es| ==> !BlindAt(s, es, i, id)
    ensures id in After(s, es[..k]).pending && id in After(s, es).pending
    ensures After(s, es).pending[id].firstSeen == After(s, es[..k]).pending[id].firstSeen
  {
    assert es[..|es|] == es;
    if k < |es| {
      var n := |es| - 1;
      var front := es[..n];
      forall i | 0 <= i <= n ensures front[..i] == es[..i] {}
      forall i | 0 <= i < n ensures BlindAt(s, front, i, id) == BlindAt(s, es, i, id) {}
      FirstSeenSince(s, front, k, id);
      assert !BlindAt(s, es, n, id);
      StepFirstSeen(After(s, front), es[n], id);
    }
  }

  // The registration at i is the last blind one.
  ghost predicate LastBlind(s: Stores, es: seq<Event>, i: nat, id: string) {
    i < |es| && BlindAt(s, es, i, id) && forall j :: i < j < |es| ==> !BlindAt(s, es, j, id)
  }

  // Over every run in which a host stays pending, its first registration time is
  // that of the last blind registration.
  lemma FirstSeenAtBlind(s: Stores, es: seq<Event>, i: nat, id: string)
    requires StaysPending(s, es, id) && LastBlind(s, es, i, id)
    ensures es[i].Registered? && id in After(s, es).pending && After(s, es).pending[id].firstSeen == es[i].now
  {
    FirstSeenSince(s, es, i + 1, id);
    assert es[..i + 1][..i] == es[..i];
    StepFirstSeen(After(s, es[..i]), es[i], id);
  }

  // If there was none, it is the one from the start.
  lemma FirstSeenInEveryRun(s: Stores, es: seq<Event>, id: string)
    requires StaysPending(s, es, id) && forall i :: 0 <= i < |es| ==> !BlindAt(s, es, i, id)
    ensures id in s.pending && id in After(s, es).pending
    ensures After(s, es).pending[id].firstSeen == s.pending[id].firstSeen
  {
    assert After(s, es[..0]) == s;
    FirstSeenSince(s, es, 0, id);
  }

  // ----- The service itself -----

  class HostService {
    var hosts: map<string, Host>
    var pending: map<string, Waiting>

    function Snapshot(): Stores
      reads this
    {
      Stores(hosts, pending)
    }

    constructor ()
      ensures Snapshot() == Stores(map[], map[])
    {
      hosts, pending := map[], map[];
    }

    method RegisterHost(id: string, info: Info, now: int, a: Access) returns (ok: bool)
      modifies this
      ensures Snapshot() == Register(old(Snapshot()), id, info, now, a)
      ensures !ok ==> Snapshot() == old(Snapshot())
      ensures var listed := a.look && id in old(pending);
              if id in old(hosts) && old(hosts)[id].status == ApprovedHost then
                ok && pending == old(pending)
                && hosts == old(hosts)[id := old(hosts)[id].(info := info, lastSeen := now)]
              else
                && hosts == old(hosts) && (ok <==> a.write && (listed ==> a.read))
                && (ok ==> id in pending && pending == old(pending)[id := pending[id]]
                           && pending[id].info == info && pending[id].lastSeen == now
                           && pending[id].firstSeen == if listed then old(pending)[id].firstSeen else now)
    {
      if id !in hosts || hosts[id].status != ApprovedHost {
        if a.look && id in pending {
          ok := UpdatePendingHost(id, info, now, a);
        } else {
          ok := AddToPendingList(id, info, now, a);
        }
      } else {
        hosts := hosts[id := hosts[id].(info := info, lastSeen := now)];
        ok := true;
      }
    }

    method AddToPendingList(id: string, info: Info, now: int, a: Access) returns (ok: bool)
      modifies this`pending
      ensures ok == a.write
      ensures pending == if ok then old(pending)[id := Waiting(info, now, now)] else old(pending)
    {
      if a.write {
        pending := pending[id := Waiting(info, now, now)];
      }
      ok := a.write;
    }

    method UpdatePendingHost(id: string, info: Info, now: int, a: Access) returns (ok: bool)
      modifies this`pending
      ensures ok <==> a.read && a.write && id in old(pending)
      ensures pending == if ok then old(pending)[id := Waiting(info, old(pending)[id].firstSeen, now)] else old(pending)
    {
      if !a.read || id !in pending {
        return false;
      }
      var host := pending[id].(info := info, lastSeen := now);
      if a.write {
        pending := pending[id := host];
      }
      ok := a.write;
    }

    method ApproveHost(id: string, a: Access) returns (ok: bool)
      modifies this
      ensures ok <==> CanApprove(old(Snapshot()), id, a)
      ensures Snapshot() == Approve(old(Snapshot()), id, a)
      ensures ok <==> a.read && id in old(pending)
      ensures ok ==> id in hosts && hosts == old(hosts)[id := hosts[id]] && hosts[id].status == ApprovedHost
      ensures ok && id in old(hosts) ==>
                hosts[id].info == old(hosts)[id].info && hosts[id].lastSeen == old(hosts)[id].lastSeen
      ensures ok && id !in old(hosts) ==>
                hosts[id].info == old(pending)[id].info && hosts[id].lastSeen == old(pending)[id].lastSeen
      ensures pending == if ok && a.delete then old(pending) - {id} else old(pending)
    {
      if !a.read || id !in pending {
        return false;
      }
      var waiting := pending[id];
      if id in hosts {
        hosts := hosts[id := hosts[id].(status := ApprovedHost)];
      } else {
        var host := Host(PendingHost, waiting.info, waiting.lastSeen);
        hosts := hosts[id := host.(status := ApprovedHost)];
      }
      if a.delete {
        pending := pending - {id};
      }
      ok := true;
    }

    method RejectHost(id: string, a: Access) returns (ok: bool)
      modifies this
      ensures ok <==> a.read && a.delete && id in old(pending)
      ensures Snapshot() == Reject(old(Snapshot()), id, a)
      ensures hosts == old(hosts) && pending == if ok then old(pending) - {id} else old(pending)
    {
      if !a.read || id !in pending {
        return false;
      }
      if a.delete {
        pending := pending - {id};
      }
      ok := a.delete;
    }

    // Status reports are accepted exactly for approved hosts.
    method ReportHostStatus(id: string, ip: string, tags: map<string, string>, now: int) returns (ok: bool)
      modifies this
      ensures ok <==> Approved(old(Snapshot()), id)
      ensures Snapshot() == Report(old(Snapshot()), id, ip, tags, now)
      ensures ok <==> id in old(hosts) && old(hosts)[id].status == ApprovedHost
      ensures !ok ==> hosts == old(hosts)
      ensures ok ==> id in hosts && hosts == old(hosts)[id := hosts[id]] && pending == old(pending)
      ensures ok ==>
                var a, b := old(hosts)[id], hosts[id];
                && b.status == ApprovedHost && b.lastSeen == now
                && b.info.hostname == a.info.hostname && b.info.os == a.info.os
                && b.info.ip == (if ip == "" then a.info.ip else ip)
                && (forall k :: k in b.info.tags <==> k in a.info.tags || k in tags)
                && (forall k :: k in b.info.tags ==> b.info.tags[k] == if k in tags then tags[k] else a.info.tags[k])
    {
      if id !in hosts || hosts[id].status != ApprovedHost {
        return false;
      }
      var host := hosts[id].(lastSeen := now);
      if ip != "" {
        host := host.(info := host.info.(ip := ip));
      }
      host := host.(info := host.info.(tags := host.info.tags + tags));
      hosts := hosts[id := host];
      ok := true;
    }
  }

}
