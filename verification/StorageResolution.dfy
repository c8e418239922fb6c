/**
 Disk-to-datastore resolution, pkg/duckdb_parser/storage.go: the common table expressions as
 relational operators. A base table is a sequence of rows whose rowid is the index; SELECT
 DISTINCT, UNION and GROUP BY give sets, joins give sequences with duplicates; NULL is None.
 */
module StorageResolution {
  import opened Common

  datatype DatastoreRow = DatastoreRow(name: Option<string>, hosts: Option<string>)

  datatype HostRow = HostRow(objectID: Option<string>, host: Option<string>, cluster: Option<string>)

  datatype InfoRow = InfoRow(vmID: Option<string>, host: Option<string>)

  datatype DiskRow = DiskRow(vmID: Option<string>, path: Option<string>, diskPath: Option<string>)

  /** TRIM, LOWER, string_split at commas and the [datastore] part of a path: any functions at all. */
  datatype TextFunctions = TextFunctions(trim: string -> string, lower: string -> string,
                                         split: string -> seq<string>, bracketed: string -> string)

  datatype Tables = Tables(text: TextFunctions, datastores: seq<DatastoreRow>, hosts: seq<HostRow>,
                           infos: seq<InfoRow>, disks: seq<DiskRow>)

  function Coalesce<T>(a: Option<T>, b: Option<T>): Option<T> {
    if a.Some? then a else b
  }

  function MapNull(f: string -> string, x: Option<string>): Option<string> {
    if x.Some? then Some(f(x.value)) else None
  }

  /** SQL equality: NULL equals nothing. */
  predicate SqlEqual(a: Option<string>, b: Option<string>) {
    a.Some? && b.Some? && a.value == b.value
  }

  // ----- storage_hosts

  /** The GROUP BY key of a host row: object ID, lower-case trimmed name, cluster. */
  function HostKey(t: Tables, i: nat): (Option<string>, Option<string>, Option<string>)
    requires i < |t.hosts|
  {
    (t.hosts[i].objectID, HostName(t, i), t.hosts[i].cluster)
  }

  function HostName(t: Tables, i: nat): Option<string>
    requires i < |t.hosts|
  {
    MapNull(t.text.lower, MapNull(t.text.trim, t.hosts[i].host))
  }

  /** The groups, each by its MIN(rowid). */
  ghost function StorageHosts(t: Tables): set<int> {
    set i | 0 <= i < |t.hosts| && forall j :: 0 <= j < i ==> HostKey(t, j) != HostKey(t, i)
  }

  /** host_row_id, host_id and host_cluster of a group. */
  datatype HostRef = HostRef(rowID: int, id: Option<string>, cluster: Option<string>)

  function ToHostRef(t: Tables, i: nat): HostRef
    requires i < |t.hosts|
  {
    HostRef(i, t.hosts[i].objectID, t.hosts[i].cluster)
  }

  // ----- storage_host_candidates and storage_host_references

  function HostPieces(t: Tables, d: nat): seq<string>
    requires d < |t.datastores|
  {
    t.text.split(if t.datastores[d].hosts.Some? then t.datastores[d].hosts.value else "")
  }

  ghost function References(t: Tables): set<string> {
    (set d, p | 0 <= d < |t.datastores| && 0 <= p < |HostPieces(t, d)| :: t.text.trim(HostPieces(t, d)[p]))
    + (set i | 0 <= i < |t.infos| && t.infos[i].host.Some? :: t.text.trim(t.infos[i].host.value))
    - {""}
  }

  predicate Denotes(t: Tables, reference: string, i: nat)
    requires i < |t.hosts|
  {
    || SqlEqual(Some(reference), MapNull(t.text.trim, t.hosts[i].objectID))
    || SqlEqual(Some(t.text.lower(reference)), HostName(t, i))
  }

  ghost function HostCandidates(t: Tables): set<(string, HostRef)> {
    set r, i | r in References(t) && i in StorageHosts(t) && Denotes(t, r, i) :: (r, ToHostRef(t, i))
  }

  /** GROUP BY reference HAVING COUNT(*) = 1. */
  ghost function HostReferences(t: Tables): set<(string, HostRef)> {
    set c | c in HostCandidates(t) && |CandidatesOf(t, c.0)| == 1
  }

  ghost function CandidatesOf(t: Tables, reference: string): set<(string, HostRef)> {
    set c | c in HostCandidates(t) && c.0 == reference
  }

  lemma {:induction false} SubsetSize<T>(a: set<T>, b: set<T>)
    requires a <= b
    ensures |a| <= |b|
  {
    if x :| x in a {
      SubsetSize(a - {x}, b - {x});
    }
  }

  lemma SingletonMembers<T>(s: set<T>, x: T, y: T)
    requires |s| <= 1 && x in s && y in s
    ensures x == y
  {
    SubsetSize({x, y}, s);
    assert x != y ==> |{x, y}| == 2;
  }

  /** Each reference resolves to at most one host, and a row ID to one host_id and host_cluster. */
  lemma HostReferenceUnique(t: Tables, reference: string, g: HostRef, h: HostRef)
    requires (reference, g) in HostReferences(t)
    ensures (reference, h) in HostReferences(t) ==> g == h
    ensures forall r :: (r, h) in HostReferences(t) && h.rowID == g.rowID ==> g == h
  {
    if (reference, h) in HostReferences(t) {
      SingletonMembers(CandidatesOf(t, reference), (reference, g), (reference, h));
    }
  }

  // ----- storage_datastore_hosts

  datatype DatastoreHost = DatastoreHost(datastore: int, host: HostRef)

  ghost function DatastoreHosts(t: Tables): set<DatastoreHost> {
    set d, p, c | 0 <= d < |t.datastores| && 0 <= p < |HostPieces(t, d)| && c in HostReferences(t)
      && c.0 == t.text.trim(HostPieces(t, d)[p]) :: DatastoreHost(d, c.1)
  }

  // ----- storage_disk_candidates

  datatype Candidate = Candidate(vmID: Option<string>, disk: int, datastore: int, hostMatch: bool)

  /** The right side of a LEFT JOIN: its matches in some order, or one NULL. */
  ghost function OrNull<T>(matches: set<T>): (s: seq<Option<T>>)
    ensures |matches| == 0 ==> s == [None]
    ensures |matches| == 1 ==> |s| == 1 && s[0].Some? && s[0].value in matches
  {
    if matches == {} then [None]
    else
      var x :| x in matches;
      [Some(x)] + if matches == {x} then [] else OrNull(matches - {x})
  }

  ghost function FlatMap<A, B>(s: seq<A>, f: A -> seq<B>): seq<B> {
    if s == [] then [] else FlatMap(Front(s), f) + f(Last(s))
  }

  predicate NameMatches(t: Tables, k: nat, d: nat)
    requires k < |t.disks| && d < |t.datastores|
  {
    SqlEqual(t.datastores[d].name, MapNull(t.text.bracketed, Coalesce(t.disks[k].path, t.disks[k].diskPath)))
  }

  /** vinfo rows with this VM ID, in table order. */
  function InfosOf(infos: seq<InfoRow>, vmID: Option<string>): seq<Option<InfoRow>> {
    if infos == [] then []
    else if SqlEqual(Last(infos).vmID, vmID) then InfosOf(Front(infos), vmID) + [Some(Last(infos))]
    else InfosOf(Front(infos), vmID)
  }

  function JoinedInfos(t: Tables, k: nat): (s: seq<Option<InfoRow>>)
    requires k < |t.disks|
    ensures |s| >= 1
  {
    var infos := InfosOf(t.infos, t.disks[k].vmID);
    if infos == [] then [None] else infos
  }

  /** vm_host: the host the VM's reference resolves to. */
  ghost function VMHosts(t: Tables, info: Option<InfoRow>): set<HostRef> {
    if info.None? || info.value.host.None? then {}
    else set c | c in HostReferences(t) && c.0 == t.text.trim(info.value.host.value) :: c.1
  }

  ghost function Members(t: Tables, d: int, host: Option<HostRef>): set<DatastoreHost> {
    set m | m in DatastoreHosts(t) && m.datastore == d && host.Some? && m.host.rowID == host.value.rowID
  }

  ghost function MemberRows(t: Tables, k: nat, d: int, host: Option<HostRef>): seq<Candidate>
    requires k < |t.disks|
  {
    FlatMap(OrNull(Members(t, d, host)),
            (member: Option<DatastoreHost>) => [Candidate(t.disks[k].vmID, k, d, member.Some?)])
  }

  ghost function HostRows(t: Tables, k: nat, d: int, info: Option<InfoRow>): seq<Candidate>
    requires k < |t.disks|
  {
    FlatMap(OrNull(VMHosts(t, info)), (host: Option<HostRef>) => MemberRows(t, k, d, host))
  }

  ghost function InfoRows(t: Tables, k: nat, d: int, infos: seq<Option<InfoRow>>): seq<Candidate>
    requires k < |t.disks|
  {
    if infos == [] then [] else InfoRows(t, k, d, Front(infos)) + HostRows(t, k, d, Last(infos))
  }

  ghost function RowsUpTo(t: Tables, k: nat, n: nat): seq<Candidate>
    requires k < |t.disks| && n <= |t.datastores|
  {
    if n == 0 then []
    else if NameMatches(t, k, n - 1) then RowsUpTo(t, k, n - 1) + InfoRows(t, k, n - 1, JoinedInfos(t, k))
    else RowsUpTo(t, k, n - 1)
  }

  ghost function RowsOf(t: Tables, k: nat): seq<Candidate>
    requires k < |t.disks|
  {
    RowsUpTo(t, k, |t.datastores|)
  }

  ghost function DiskCandidates(t: Tables, n: nat): seq<Candidate>
    requires n <= |t.disks|
  {
    if n == 0 then [] else DiskCandidates(t, n - 1) + RowsOf(t, n - 1)
  }

  /** WHERE dk."VM ID" = ?, on the joined rows. */
  function ForVM(rows: seq<Candidate>, vm: string): seq<Candidate> {
    if rows == [] then []
    else if SqlEqual(Last(rows).vmID, Some(vm)) then ForVM(Front(rows), vm) + [Last(rows)]
    else ForVM(Front(rows), vm)
  }

  /** The CTE in both forms: of all VMs, or of the one passed as parameter. */
  ghost function StorageDiskCandidates(t: Tables, vmOnly: Option<string>): seq<Candidate> {
    var all := DiskCandidates(t, |t.disks|);
    if vmOnly.Some? then ForVM(all, vmOnly.value) else all
  }

  // ----- storage_disk_datastores

  /** COUNT(*) OVER the partition of a row: same VM ID (NULLs together) and same disk row. */
  function PartitionCount(rows: seq<Candidate>, r: Candidate): nat {
    if rows == [] then 0
    else PartitionCount(Front(rows), r) + if SamePartition(Last(rows), r) then 1 else 0
  }

  /** COUNT(*) FILTER (WHERE host_match) OVER the same partition. */
  function MatchCount(rows: seq<Candidate>, r: Candidate): nat {
    if rows == [] then 0
    else MatchCount(Front(rows), r) + if SamePartition(Last(rows), r) && Last(rows).hostMatch then 1 else 0
  }

  predicate SamePartition(a: Candidate, b: Candidate) {
    a.vmID == b.vmID && a.disk == b.disk
  }

  predicate Qualifies(window: seq<Candidate>, r: Candidate) {
    PartitionCount(window, r) == 1 || (r.hostMatch && MatchCount(window, r) == 1)
  }

  /** The rows of the first sequence that qualify over the window. */
  function Qualify(rows: seq<Candidate>, window: seq<Candidate>): seq<Candidate> {
    if rows == [] then []
    else if Qualifies(window, Last(rows)) then Qualify(Front(rows), window) + [Last(rows)]
    else Qualify(Front(rows), window)
  }

  function Resolve(rows: seq<Candidate>): seq<Candidate> {
    Qualify(rows, rows)
  }

  ghost function StorageDiskDatastores(t: Tables, vmOnly: Option<string>): seq<Candidate> {
    Resolve(StorageDiskCandidates(t, vmOnly))
  }

  // ----- filter pushdown

  lemma {:induction false} CountsOfVM(rows: seq<Candidate>, vm: string, r: Candidate)
    requires r.vmID == Some(vm)
    ensures PartitionCount(ForVM(rows, vm), r) == PartitionCount(rows, r)
    ensures MatchCount(ForVM(rows, vm), r) == MatchCount(rows, r)
  {
    if rows != [] {
      CountsOfVM(Front(rows), vm, r);
      var filtered := ForVM(rows, vm);
      if SqlEqual(Last(rows).vmID, Some(vm)) {
        assert Front(filtered) == ForVM(Front(rows), vm) && Last(filtered) == Last(rows);
      }
    }
  }

  lemma {:induction false} QualifyOfVM(rows: seq<Candidate>, window: seq<Candidate>, vm: string)
    ensures Qualify(ForVM(rows, vm), ForVM(window, vm)) == ForVM(Qualify(rows, window), vm)
  {
    if rows != [] {
      QualifyOfVM(Front(rows), window, vm);
      var last, filtered := Last(rows), ForVM(rows, vm);
      if SqlEqual(last.vmID, Some(vm)) {
        assert Front(filtered) == ForVM(Front(rows), vm) && Last(filtered) == last;
        CountsOfVM(window, vm, last);
      }
      if Qualifies(window, last) {
        var kept := Qualify(rows, window);
        assert Front(kept) == Qualify(Front(rows), window) && Last(kept) == last;
      }
    }
  }

  /** Filtering the candidates by VM and then resolving gives that VM's rows of the full resolution. */
  lemma FilterPushdown(t: Tables, vm: string)
    ensures StorageDiskDatastores(t, Some(vm)) == ForVM(StorageDiskDatastores(t, None), vm)
  {
    var all := DiskCandidates(t, |t.disks|);
    QualifyOfVM(all, all, vm);
  }

  // ----- at most one datastore per disk

  lemma CountsSnoc(rows: seq<Candidate>, last: Candidate, r: Candidate)
    ensures PartitionCount(rows + [last], r) == PartitionCount(rows, r) + if SamePartition(last, r) then 1 else 0
    ensures MatchCount(rows + [last], r)
      == MatchCount(rows, r) + if SamePartition(last, r) && last.hostMatch then 1 else 0
  {
    assert Front(rows + [last]) == rows && Last(rows + [last]) == last;
  }

  lemma {:induction false} QualifyCount(rows: seq<Candidate>, window: seq<Candidate>, r: Candidate)
    ensures PartitionCount(Qualify(rows, window), r) <= PartitionCount(rows, r)
    ensures PartitionCount(window, r) != 1 ==>
      PartitionCount(Qualify(rows, window), r) == if MatchCount(window, r) == 1 then MatchCount(rows, r) else 0
    ensures PartitionCount(window, r) == 1 ==> PartitionCount(Qualify(rows, window), r) == PartitionCount(rows, r)
  {
    if rows != [] {
      var before, last := Qualify(Front(rows), window), Last(rows);
      QualifyCount(Front(rows), window, r);
      if SamePartition(last, r) {
        SameCounts(window, last, r);
      }
      CountsSnoc(before, last, r);
      assert Qualify(rows, window) == if Qualifies(window, last) then before + [last] else before;
      hide Qualify;
    }
  }

  lemma {:induction false} SameCounts(rows: seq<Candidate>, a: Candidate, b: Candidate)
    requires SamePartition(a, b)
    ensures PartitionCount(rows, a) == PartitionCount(rows, b) && MatchCount(rows, a) == MatchCount(rows, b)
  {
    if rows != [] {
      SameCounts(Front(rows), a, b);
    }
  }

  /** Whatever the candidates, a disk resolves to at most one row. */
  lemma AtMostOneDatastore(rows: seq<Candidate>, r: Candidate)
    ensures PartitionCount(Resolve(rows), r) <= 1
  {
    QualifyCount(rows, rows, r);
  }

  lemma {:induction false} QualifyMembers(rows: seq<Candidate>, window: seq<Candidate>, r: Candidate)
    ensures r in Qualify(rows, window) <==> r in rows && Qualifies(window, r)
  {
    if rows != [] {
      QualifyMembers(Front(rows), window, r);
      assert rows == Front(rows) + [Last(rows)];
    }
  }

  /** A disk with a single candidate row always resolves to it. */
  lemma SingleCandidateResolves(rows: seq<Candidate>, r: Candidate)
    requires r in rows && PartitionCount(rows, r) == 1
    ensures r in Resolve(rows)
  {
    QualifyMembers(rows, rows, r);
  }

  // ----- resolution in terms of the base tables

  /** The VM's row and the datastore's host list point at the same host. */
  ghost predicate HostMatch(t: Tables, d: int, info: Option<InfoRow>) {
    exists h :: h in VMHosts(t, info) && DatastoreHost(d, h) in DatastoreHosts(t)
  }

  lemma FlatMapOne<A, B>(x: A, f: A -> seq<B>)
    ensures FlatMap([x], f) == f(x)
  {
    assert Front([x]) == [];
    assert FlatMap([], f) == [];
  }

  lemma SmallSet<T>(s: set<T>, x: T)
    requires forall y, z :: y in s && z in s ==> y == z
    requires x in s
    ensures s == {x} && |s| == 1
  {
  }

  /** The two outer joins to hosts never multiply rows: each VM row gives one candidate per datastore. */
  lemma HostRowsSingle(t: Tables, k: nat, d: int, info: Option<InfoRow>)
    requires k < |t.disks|
    ensures HostRows(t, k, d, info) == [Candidate(t.disks[k].vmID, k, d, HostMatch(t, d, info))]
  {
    var hosts := VMHosts(t, info);
    var toRows := (host: Option<HostRef>) => MemberRows(t, k, d, host);
    forall g, h | g in hosts && h in hosts
      ensures g == h
    {
      HostReferenceUnique(t, t.text.trim(info.value.host.value), g, h);
    }
    if hosts == {} {
      FlatMapOne(None, toRows);
      MemberRowsSingle(t, k, d, None);
    } else {
      var h :| h in hosts;
      SmallSet(hosts, h);
      assert OrNull(hosts) == [Some(h)];
      FlatMapOne(Some(h), toRows);
      assert (t.text.trim(info.value.host.value), h) in HostReferences(t);
      MemberRowsSingle(t, k, d, Some(h));
    }
  }

  lemma MemberRowsSingle(t: Tables, k: nat, d: int, host: Option<HostRef>)
    requires k < |t.disks|
    requires host.Some? ==> exists r :: (r, host.value) in HostReferences(t)
    ensures MemberRows(t, k, d, host)
      == [Candidate(t.disks[k].vmID, k, d, host.Some? && DatastoreHost(d, host.value) in DatastoreHosts(t))]
  {
    var members := Members(t, d, host);
    var toRow := (member: Option<DatastoreHost>) => [Candidate(t.disks[k].vmID, k, d, member.Some?)];
    forall m | m in members
      ensures m == DatastoreHost(d, host.value)
    {
      var r :| (r, host.value) in HostReferences(t);
      var c :| c in HostReferences(t) && m.host == c.1;
      HostReferenceUnique(t, r, host.value, m.host);
      assert (c.0, m.host) in HostReferences(t);
    }
    assert host.Some? && DatastoreHost(d, host.value) in DatastoreHosts(t)
      ==> DatastoreHost(d, host.value) in members;
    if members == {} {
      FlatMapOne(None, toRow);
    } else {
      var m :| m in members;
      SmallSet(members, m);
      assert OrNull(members) == [Some(m)];
      FlatMapOne(Some(m), toRow);
    }
  }

  /** How many datastores of the first n are named by the disk's path. */
  function NamedCount(t: Tables, k: nat, n: nat): nat
    requires k < |t.disks| && n <= |t.datastores|
  {
    if n == 0 then 0 else NamedCount(t, k, n - 1) + if NameMatches(t, k, n - 1) then 1 else 0
  }

  /** How many of the VM's rows point at a host of the datastore. */
  ghost function HostMatches(t: Tables, d: int, infos: seq<Option<InfoRow>>): nat {
    if infos == [] then 0
    else HostMatches(t, d, Front(infos)) + if HostMatch(t, d, Last(infos)) then 1 else 0
  }

  ghost function NamedHostMatches(t: Tables, k: nat, n: nat): nat
    requires k < |t.disks| && n <= |t.datastores|
  {
    if n == 0 then 0
    else if NameMatches(t, k, n - 1) then NamedHostMatches(t, k, n - 1) + HostMatches(t, n - 1, JoinedInfos(t, k))
    else NamedHostMatches(t, k, n - 1)
  }

  lemma {:induction false} CountsConcat(a: seq<Candidate>, b: seq<Candidate>, r: Candidate)
    ensures PartitionCount(a + b, r) == PartitionCount(a, r) + PartitionCount(b, r)
    ensures MatchCount(a + b, r) == MatchCount(a, r) + MatchCount(b, r)
  {
    if b == [] {
      assert a + b == a;
    } else {
      CountsConcat(a, Front(b), r);
      assert Front(a + b) == a + Front(b) && Last(a + b) == Last(b);
    }
  }

  /** The candidate of a datastore and a VM row. */
  ghost function CandidateFor(t: Tables, k: nat, d: int, info: Option<InfoRow>): Candidate
    requires k < |t.disks|
  {
    Candidate(t.disks[k].vmID, k, d, HostMatch(t, d, info))
  }

  lemma InfoRowsSnoc(t: Tables, k: nat, d: int, infos: seq<Option<InfoRow>>)
    requires k < |t.disks| && infos != []
    ensures InfoRows(t, k, d, infos) == InfoRows(t, k, d, Front(infos)) + [CandidateFor(t, k, d, Last(infos))]
  {
    HostRowsSingle(t, k, d, Last(infos));
  }

  /** The candidates of one datastore: one per VM row, matching where the hosts do. */
  lemma {:induction false} InfoRowsMembers(t: Tables, k: nat, d: int, infos: seq<Option<InfoRow>>, r: Candidate)
    requires k < |t.disks|
    ensures r in InfoRows(t, k, d, infos) <==> exists info :: info in infos && r == CandidateFor(t, k, d, info)
  {
    hide HostMatch;
    if infos != [] {
      InfoRowsSnoc(t, k, d, infos);
      InfoRowsMembers(t, k, d, Front(infos), r);
      var last := Last(infos);
      assert forall info :: info in infos <==> info in Front(infos) || info == last;
      assert r in InfoRows(t, k, d, infos) <==> r in InfoRows(t, k, d, Front(infos)) || r == CandidateFor(t, k, d, last);
    }
  }

  lemma {:induction false} InfoRowsCounts(t: Tables, k: nat, d: int, infos: seq<Option<InfoRow>>, r: Candidate)
    requires k < |t.disks|
    ensures var mine := r.vmID == t.disks[k].vmID && r.disk == k;
      && PartitionCount(InfoRows(t, k, d, infos), r) == (if mine then |infos| else 0)
      && MatchCount(InfoRows(t, k, d, infos), r) == (if mine then HostMatches(t, d, infos) else 0)
  {
    hide HostMatch;
    hide PartitionCount;
    hide MatchCount;
    if infos == [] {
      NoRows(r);
    } else {
      var row := CandidateFor(t, k, d, Last(infos));
      InfoRowsSnoc(t, k, d, infos);
      InfoRowsCounts(t, k, d, Front(infos), r);
      CountsConcat(InfoRows(t, k, d, Front(infos)), [row], r);
      CountOne(row, r);
    }
  }

  lemma CountOne(row: Candidate, r: Candidate)
    ensures PartitionCount([row], r) == if SamePartition(row, r) then 1 else 0
    ensures MatchCount([row], r) == if SamePartition(row, r) && row.hostMatch then 1 else 0
  {
    assert Front([row]) == [];
    assert PartitionCount([], r) == 0 && MatchCount([], r) == 0;
  }

  /** The candidate row of disk k, datastore d and a VM row. */
  ghost predicate IsCandidate(t: Tables, k: nat, n: nat, r: Candidate)
    requires k < |t.disks| && n <= |t.datastores|
  {
    && r.vmID == t.disks[k].vmID && r.disk == k && 0 <= r.datastore < n && NameMatches(t, k, r.datastore)
    && exists info :: info in JoinedInfos(t, k) && r == CandidateFor(t, k, r.datastore, info)
  }

  lemma {:induction false} RowsUpToMembers(t: Tables, k: nat, n: nat, r: Candidate)
    requires k < |t.disks| && n <= |t.datastores|
    ensures r in RowsUpTo(t, k, n) <==> IsCandidate(t, k, n, r)
  {
    hide HostMatch;
    hide InfoRows;
    if n > 0 {
      RowsUpToMembers(t, k, n - 1, r);
      InfoRowsMembers(t, k, n - 1, JoinedInfos(t, k), r);
    }
  }

  lemma {:induction false} RowsUpToCounts(t: Tables, k: nat, n: nat, r: Candidate)
    requires k < |t.disks| && n <= |t.datastores|
    ensures var mine := r.vmID == t.disks[k].vmID && r.disk == k;
      && PartitionCount(RowsUpTo(t, k, n), r) == (if mine then NamedCount(t, k, n) * |JoinedInfos(t, k)| else 0)
      && MatchCount(RowsUpTo(t, k, n), r) == (if mine then NamedHostMatches(t, k, n) else 0)
  {
    hide InfoRows;
    hide HostMatches;
    hide PartitionCount;
    hide MatchCount;
    var infos := JoinedInfos(t, k);
    if n == 0 {
      NoRows(r);
    } else {
      RowsUpToCounts(t, k, n - 1, r);
      InfoRowsCounts(t, k, n - 1, infos, r);
      CountsConcat(RowsUpTo(t, k, n - 1), InfoRows(t, k, n - 1, infos), r);
      Distribute(NamedCount(t, k, n - 1), |infos|);
    }
  }

  lemma NoRows(r: Candidate)
    ensures PartitionCount([], r) == 0 && MatchCount([], r) == 0
  {
  }

  lemma Distribute(n: nat, m: nat)
    ensures (n + 1) * m == n * m + m
  {
  }

  lemma RowsUpToShape(t: Tables, k: nat, n: nat, r: Candidate)
    requires k < |t.disks| && n <= |t.datastores|
    ensures r in RowsUpTo(t, k, n) <==> IsCandidate(t, k, n, r)
    ensures var mine := r.vmID == t.disks[k].vmID && r.disk == k;
      && PartitionCount(RowsUpTo(t, k, n), r) == (if mine then NamedCount(t, k, n) * |JoinedInfos(t, k)| else 0)
      && MatchCount(RowsUpTo(t, k, n), r) == (if mine then NamedHostMatches(t, k, n) else 0)
  {
    RowsUpToMembers(t, k, n, r);
    RowsUpToCounts(t, k, n, r);
  }

  lemma {:induction false} DiskCandidatesShape(t: Tables, n: nat, r: Candidate)
    requires n <= |t.disks|
    ensures r in DiskCandidates(t, n) <==> 0 <= r.disk < n && r in RowsOf(t, r.disk)
    ensures PartitionCount(DiskCandidates(t, n), r)
      == if 0 <= r.disk < n then PartitionCount(RowsOf(t, r.disk), r) else 0
    ensures MatchCount(DiskCandidates(t, n), r)
      == if 0 <= r.disk < n then MatchCount(RowsOf(t, r.disk), r) else 0
  {
    hide PartitionCount;
    hide MatchCount;
    hide RowsUpTo;
    if n == 0 {
      NoRows(r);
    } else {
      DiskCandidatesShape(t, n - 1, r);
      CountsConcat(DiskCandidates(t, n - 1), RowsOf(t, n - 1), r);
      RowsUpToShape(t, n - 1, |t.datastores|, r);
    }
  }

  ghost predicate ResolvesTo(t: Tables, k: nat, d: int) {
    exists r :: r in StorageDiskDatastores(t, None) && r.disk == k && r.datastore == d
  }

  /**
   Resolution, exactly, for any tables: a disk resolves to a datastore that its path names if
   that is the only named one and the VM has at most one row, or if among all named datastores
   and rows of the VM this datastore has the only host match.
   */
  lemma ResolutionExact(t: Tables, k: nat, d: nat)
    requires k < |t.disks| && d < |t.datastores|
    ensures ResolvesTo(t, k, d) <==>
      && NameMatches(t, k, d)
      && (|| NamedCount(t, k, |t.datastores|) * |JoinedInfos(t, k)| == 1
          || (NamedHostMatches(t, k, |t.datastores|) == 1 && HostMatches(t, d, JoinedInfos(t, k)) >= 1))
  {
    var all, n, infos := DiskCandidates(t, |t.disks|), |t.datastores|, JoinedInfos(t, k);
    forall m: bool
      ensures var r := Candidate(t.disks[k].vmID, k, d, m);
        && (r in Resolve(all) <==> IsCandidate(t, k, n, r) && Qualifies(all, r))
        && PartitionCount(all, r) == NamedCount(t, k, n) * |infos|
        && MatchCount(all, r) == NamedHostMatches(t, k, n)
    {
      var r := Candidate(t.disks[k].vmID, k, d, m);
      QualifyMembers(all, all, r);
      DiskCandidatesShape(t, |t.disks|, r);
      RowsUpToShape(t, k, n, r);
    }
    HostMatchesPositive(t, d, infos);
    if ResolvesTo(t, k, d) {
      var r :| r in Resolve(all) && r.disk == k && r.datastore == d;
      QualifyMembers(all, all, r);
      DiskCandidatesShape(t, |t.disks|, r);
      RowsUpToShape(t, k, n, r);
      assert r == Candidate(t.disks[k].vmID, k, d, r.hostMatch);
    }
    if NameMatches(t, k, d) {
      assert infos[0] in infos;
      assert IsCandidate(t, k, n, CandidateFor(t, k, d, infos[0]));
      if HostMatches(t, d, infos) >= 1 {
        var info :| info in infos && HostMatch(t, d, info);
        assert IsCandidate(t, k, n, CandidateFor(t, k, d, info));
      }
    }
  }

  lemma {:induction false} HostMatchesPositive(t: Tables, d: int, infos: seq<Option<InfoRow>>)
    ensures HostMatches(t, d, infos) >= 1 <==> exists info :: info in infos && HostMatch(t, d, info)
  {
    hide HostMatch;
    if infos != [] {
      HostMatchesPositive(t, d, Front(infos));
      assert infos == Front(infos) + [Last(infos)];
    }
  }

  lemma {:induction false} OnlyNamed(t: Tables, k: nat, d: nat, n: nat)
    requires k < |t.disks| && d < n <= |t.datastores| && NameMatches(t, k, d)
    ensures NamedCount(t, k, n) >= 1
    ensures NamedCount(t, k, n) == 1 <==> forall e :: 0 <= e < n && NameMatches(t, k, e) ==> e == d
  {
    if d < n - 1 {
      OnlyNamed(t, k, d, n - 1);
    } else {
      NoneNamed(t, k, n - 1);
    }
  }

  lemma {:induction false} NoneNamed(t: Tables, k: nat, n: nat)
    requires k < |t.disks| && n <= |t.datastores|
    ensures NamedCount(t, k, n) == 0 <==> forall e :: 0 <= e < n ==> !NameMatches(t, k, e)
  {
    if n > 0 {
      NoneNamed(t, k, n - 1);
    }
  }

  /** A named datastore that the VM's only row matches by host. */
  ghost predicate NamedAndMatched(t: Tables, k: nat, e: nat, info: Option<InfoRow>)
    requires k < |t.disks| && e < |t.datastores|
  {
    NameMatches(t, k, e) && HostMatch(t, e, info)
  }

  lemma MatchedStep(t: Tables, k: nat, n: nat, info: Option<InfoRow>)
    requires k < |t.disks| && 0 < n <= |t.datastores| && JoinedInfos(t, k) == [info]
    ensures NamedHostMatches(t, k, n)
      == NamedHostMatches(t, k, n - 1) + if NamedAndMatched(t, k, n - 1, info) then 1 else 0
  {
    MatchesOfOne(t, n - 1, info);
  }

  lemma {:induction false} NoneMatched(t: Tables, k: nat, n: nat, info: Option<InfoRow>)
    requires k < |t.disks| && n <= |t.datastores| && JoinedInfos(t, k) == [info]
    ensures NamedHostMatches(t, k, n) == 0 <==> forall e :: 0 <= e < n ==> !NamedAndMatched(t, k, e, info)
  {
    assert n == 0 ==> NamedHostMatches(t, k, n) == 0;
    hide *;
    if n > 0 {
      NoneMatched(t, k, n - 1, info);
      MatchedStep(t, k, n, info);
    }
  }

  /** No other of the first n datastores is named and matched. */
  ghost predicate OnlyAt(t: Tables, k: nat, d: nat, n: nat, info: Option<InfoRow>)
    requires k < |t.disks| && n <= |t.datastores|
  {
    forall e :: 0 <= e < n && NamedAndMatched(t, k, e, info) ==> e == d
  }

  lemma OnlyAtStep(t: Tables, k: nat, d: nat, n: nat, info: Option<InfoRow>)
    requires k < |t.disks| && 0 < n <= |t.datastores|
    ensures OnlyAt(t, k, d, n, info)
      <==> OnlyAt(t, k, d, n - 1, info) && (NamedAndMatched(t, k, n - 1, info) ==> d == n - 1)
    ensures d == n - 1 ==> (OnlyAt(t, k, d, n - 1, info)
      <==> forall e :: 0 <= e < n - 1 ==> !NamedAndMatched(t, k, e, info))
  {
  }

  lemma {:induction false} OnlyMatched(t: Tables, k: nat, d: nat, n: nat, info: Option<InfoRow>)
    requires k < |t.disks| && d < n <= |t.datastores| && JoinedInfos(t, k) == [info]
    requires NamedAndMatched(t, k, d, info)
    ensures NamedHostMatches(t, k, n) >= 1
    ensures NamedHostMatches(t, k, n) == 1 <==> OnlyAt(t, k, d, n, info)
  {
    hide *;
    MatchedStep(t, k, n, info);
    OnlyAtStep(t, k, d, n, info);
    if d < n - 1 {
      OnlyMatched(t, k, d, n - 1, info);
    } else {
      NoneMatched(t, k, n - 1, info);
    }
  }

  lemma MatchesOfOne(t: Tables, d: int, info: Option<InfoRow>)
    ensures HostMatches(t, d, [info]) == if HostMatch(t, d, info) then 1 else 0
  {
    assert Front([info]) == [];
    assert HostMatches(t, d, []) == 0;
  }

  // ----- what the primary key of vinfo gives

  /** "VM ID" is the primary key of vinfo: present, and never twice. */
  ghost predicate Keyed(infos: seq<InfoRow>) {
    && (forall i :: 0 <= i < |infos| ==> infos[i].vmID.Some?)
    && (forall i, j :: 0 <= i < j < |infos| ==> infos[i].vmID != infos[j].vmID)
  }

  lemma {:induction false} InfosOfMembers(infos: seq<InfoRow>, vmID: Option<string>, x: Option<InfoRow>)
    ensures x in InfosOf(infos, vmID) <==> x.Some? && x.value in infos && SqlEqual(x.value.vmID, vmID)
  {
    if infos != [] {
      InfosOfMembers(Front(infos), vmID, x);
      assert infos == Front(infos) + [Last(infos)];
    }
  }

  lemma {:induction false} InfosOfStranger(infos: seq<InfoRow>, vmID: Option<string>)
    requires forall i :: 0 <= i < |infos| ==> !SqlEqual(infos[i].vmID, vmID)
    ensures InfosOf(infos, vmID) == []
  {
    if infos != [] {
      InfosOfStranger(Front(infos), vmID);
    }
  }

  /** No VM has two rows. */
  lemma {:induction false} InfosOfKeyed(infos: seq<InfoRow>, vmID: Option<string>)
    requires Keyed(infos)
    ensures |InfosOf(infos, vmID)| <= 1
  {
    if infos != [] {
      InfosOfKeyed(Front(infos), vmID);
      if SqlEqual(Last(infos).vmID, vmID) {
        InfosOfStranger(Front(infos), vmID);
      }
    }
  }

  /** The vinfo row of a disk's VM, if there is one. */
  ghost predicate IsVMRow(t: Tables, k: nat, info: Option<InfoRow>)
    requires k < |t.disks|
  {
    match info
    case Some(row) => row in t.infos && SqlEqual(row.vmID, t.disks[k].vmID)
    case None => forall row :: row in t.infos ==> !SqlEqual(row.vmID, t.disks[k].vmID)
  }

  /** So the outer join to vinfo gives each disk exactly one row: its VM's, or NULL. */
  lemma JoinedOnce(t: Tables, k: nat, info: Option<InfoRow>)
    requires k < |t.disks| && Keyed(t.infos)
    ensures |JoinedInfos(t, k)| == 1
    ensures IsVMRow(t, k, info) <==> JoinedInfos(t, k) == [info]
  {
    var infos := InfosOf(t.infos, t.disks[k].vmID);
    InfosOfKeyed(t.infos, t.disks[k].vmID);
    forall x
      ensures x in infos <==> x.Some? && x.value in t.infos && SqlEqual(x.value.vmID, t.disks[k].vmID)
    {
      InfosOfMembers(t.infos, t.disks[k].vmID, x);
    }
    assert forall row :: Some(row) in infos <==> row in t.infos && SqlEqual(row.vmID, t.disks[k].vmID);
    if infos == [] {
      assert forall row :: Some(row) !in infos;
    } else {
      assert infos == [infos[0]];
      assert infos[0] in infos;
    }
  }

  /** A disk whose path names exactly one datastore always resolves to it. */
  lemma SingleNameResolves(t: Tables, k: nat, d: nat)
    requires k < |t.disks| && d < |t.datastores| && Keyed(t.infos)
    requires NameMatches(t, k, d) && forall e :: 0 <= e < |t.datastores| && NameMatches(t, k, e) ==> e == d
    ensures forall e :: 0 <= e < |t.datastores| ==> (ResolvesTo(t, k, e) <==> e == d)
  {
    forall e | 0 <= e < |t.datastores|
      ensures ResolvesTo(t, k, e) <==> e == d
    {
      JoinedOnce(t, k, None);
      ResolutionExact(t, k, e);
      OnlyNamed(t, k, d, |t.datastores|);
    }
  }

  /**
   For any disk: it resolves to the one datastore its path names, or among several of that name
   to the one that lists the VM's host, if only one does.
   */
  lemma UniqueVMResolution(t: Tables, k: nat, d: nat, info: Option<InfoRow>)
    requires k < |t.disks| && d < |t.datastores| && Keyed(t.infos) && IsVMRow(t, k, info)
    ensures ResolvesTo(t, k, d) <==>
      && NameMatches(t, k, d)
      && (|| (forall e :: 0 <= e < |t.datastores| && NameMatches(t, k, e) ==> e == d)
          || (HostMatch(t, d, info)
              && OnlyAt(t, k, d, |t.datastores|, info)))
  {
    JoinedOnce(t, k, info);
    ResolutionExact(t, k, d);
    MatchesOfOne(t, d, info);
    if NameMatches(t, k, d) {
      OnlyNamed(t, k, d, |t.datastores|);
      if HostMatch(t, d, info) {
        OnlyMatched(t, k, d, |t.datastores|, info);
      }
    }
  }
}
