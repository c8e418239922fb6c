/**
 Disk-to-datastore resolution in the columns of the base tables: which host a reference stands
 for, when a VM and a datastore share a host, and what a disk then resolves to
 (pkg/duckdb_parser/storage.go).
 */
module ResolutionLaws {
  import opened Common
  import opened StorageResolution

  // ----- hosts

  /** Two vhost rows are about one host: same object ID, same cluster, same name up to case and blanks. */
  predicate SameHost(t: Tables, a: HostRow, b: HostRow) {
    && a.objectID == b.objectID && a.cluster == b.cluster
    && (a.host.Some? <==> b.host.Some?)
    && (a.host.Some? && b.host.Some? ==>
          t.text.lower(t.text.trim(a.host.value)) == t.text.lower(t.text.trim(b.host.value)))
  }

  /** The first vhost row of its host. */
  ghost predicate IsFirstRow(t: Tables, i: int) {
    0 <= i < |t.hosts| && forall j :: 0 <= j < i ==> !SameHost(t, t.hosts[j], t.hosts[i])
  }

  /** A text names a host by its object ID, or by its name in any case. */
  predicate NamesHost(t: Tables, text: string, host: HostRow) {
    || (host.objectID.Some? && t.text.trim(host.objectID.value) == text)
    || (host.host.Some? && t.text.lower(t.text.trim(host.host.value)) == t.text.lower(text))
  }

  ghost predicate NamesOnly(t: Tables, text: string, i: int) {
    && IsFirstRow(t, i) && NamesHost(t, text, t.hosts[i])
    && forall j :: IsFirstRow(t, j) && NamesHost(t, text, t.hosts[j]) ==> j == i
  }

  /** The comma-separated pieces of a datastore's Hosts column. */
  function Pieces(t: Tables, d: int): seq<string>
    requires 0 <= d < |t.datastores|
  {
    match t.datastores[d].hosts
    case Some(hosts) => t.text.split(hosts)
    case None => t.text.split("")
  }

  /** A trimmed piece of some datastore's Hosts, or the trimmed host of some VM. */
  ghost predicate IsListed(t: Tables, text: string) {
    && text != ""
    && (|| (exists d, p :: 0 <= d < |t.datastores| && 0 <= p < |Pieces(t, d)| && t.text.trim(Pieces(t, d)[p]) == text)
        || (exists i :: 0 <= i < |t.infos| && t.infos[i].host.Some? && t.text.trim(t.infos[i].host.value) == text))
  }

  lemma ListedExactly(t: Tables, text: string)
    ensures text in References(t) <==> IsListed(t, text)
  {
    assert forall d :: 0 <= d < |t.datastores| ==> Pieces(t, d) == HostPieces(t, d);
  }

  lemma HostsExactly(t: Tables, i: int)
    ensures i in StorageHosts(t) <==> IsFirstRow(t, i)
  {
    if 0 <= i < |t.hosts| {
      assert forall j :: 0 <= j < i ==> (HostKey(t, j) == HostKey(t, i) <==> SameHost(t, t.hosts[j], t.hosts[i]));
    }
  }

  lemma CandidateExactly(t: Tables, text: string, h: HostRef)
    ensures (text, h) in HostCandidates(t) <==>
      && IsListed(t, text) && IsFirstRow(t, h.rowID) && NamesHost(t, text, t.hosts[h.rowID])
      && h == HostRef(h.rowID, t.hosts[h.rowID].objectID, t.hosts[h.rowID].cluster)
  {
    ListedExactly(t, text);
    HostsExactly(t, h.rowID);
    if (text, h) in HostCandidates(t) {
      var i :| i in StorageHosts(t) && Denotes(t, text, i) && ToHostRef(t, i) == h;
      assert i == h.rowID;
    }
    if IsFirstRow(t, h.rowID) && NamesHost(t, text, t.hosts[h.rowID]) {
      assert Denotes(t, text, h.rowID);
    }
  }

  /** A reference stands for a host exactly if it is listed and names that host and no other; the host
      is known by its first row. */
  lemma HostReferenceExactly(t: Tables, text: string, h: HostRef)
    ensures (text, h) in HostReferences(t) <==>
      && IsListed(t, text) && NamesOnly(t, text, h.rowID)
      && h == HostRef(h.rowID, t.hosts[h.rowID].objectID, t.hosts[h.rowID].cluster)
  {
    CandidateExactly(t, text, h);
    var candidates := CandidatesOf(t, text);
    hide HostCandidates;
    if (text, h) in HostReferences(t) {
      forall j | IsFirstRow(t, j) && NamesHost(t, text, t.hosts[j])
        ensures j == h.rowID
      {
        var other := HostRef(j, t.hosts[j].objectID, t.hosts[j].cluster);
        CandidateExactly(t, text, other);
        SingletonMembers(candidates, (text, h), (text, other));
      }
    }
    if (text, h) in HostCandidates(t) && NamesOnly(t, text, h.rowID) {
      forall c | c in candidates
        ensures c == (text, h)
      {
        CandidateExactly(t, text, c.1);
      }
      SmallSet(candidates, (text, h));
    }
  }

  // ----- shared hosts

  /** The VM runs on a host that the datastore lists, both by references to that host alone. */
  ghost predicate SharesHost(t: Tables, d: int, info: Option<InfoRow>)
    requires 0 <= d < |t.datastores|
  {
    && info.Some? && info.value.host.Some?
    && exists i, p :: SharesHostAt(t, d, info.value.host.value, i, p)
  }

  ghost predicate SharesHostAt(t: Tables, d: int, vmHost: string, i: int, p: int)
    requires 0 <= d < |t.datastores|
  {
    && 0 <= p < |Pieces(t, d)|
    && IsListed(t, t.text.trim(vmHost)) && NamesOnly(t, t.text.trim(vmHost), i)
    && IsListed(t, t.text.trim(Pieces(t, d)[p])) && NamesOnly(t, t.text.trim(Pieces(t, d)[p]), i)
  }

  lemma HostMatchExactly(t: Tables, d: int, info: Option<InfoRow>)
    requires 0 <= d < |t.datastores|
    ensures HostMatch(t, d, info) <==> SharesHost(t, d, info)
  {
    if HostMatch(t, d, info) {
      var h :| h in VMHosts(t, info) && DatastoreHost(d, h) in DatastoreHosts(t);
      var text := t.text.trim(info.value.host.value);
      var p :| 0 <= p < |HostPieces(t, d)| && (t.text.trim(HostPieces(t, d)[p]), h) in HostReferences(t);
      HostReferenceExactly(t, text, h);
      HostReferenceExactly(t, t.text.trim(HostPieces(t, d)[p]), h);
      assert SharesHostAt(t, d, info.value.host.value, h.rowID, p);
    }
    if SharesHost(t, d, info) {
      var i, p :| SharesHostAt(t, d, info.value.host.value, i, p);
      var h := HostRef(i, t.hosts[i].objectID, t.hosts[i].cluster);
      HostReferenceExactly(t, t.text.trim(info.value.host.value), h);
      HostReferenceExactly(t, t.text.trim(Pieces(t, d)[p]), h);
      assert Pieces(t, d) == HostPieces(t, d);
      assert (t.text.trim(info.value.host.value), h) in HostReferences(t);
      assert h in VMHosts(t, info);
      assert (t.text.trim(HostPieces(t, d)[p]), h) in HostReferences(t);
      assert DatastoreHost(d, h) in DatastoreHosts(t);
    }
  }

  // ----- disks

  /** The disk's path, or its disk path where there is none, names the datastore in brackets. */
  predicate PathNames(t: Tables, k: int, d: int)
    requires 0 <= k < |t.disks| && 0 <= d < |t.datastores|
  {
    && t.datastores[d].name.Some?
    && match (t.disks[k].path, t.disks[k].diskPath)
       case (Some(path), _) => t.text.bracketed(path) == t.datastores[d].name.value
       case (None, Some(diskPath)) => t.text.bracketed(diskPath) == t.datastores[d].name.value
       case (None, None) => false
  }

  lemma PathNamesExactly(t: Tables, k: int, d: int)
    requires 0 <= k < |t.disks| && 0 <= d < |t.datastores|
    ensures NameMatches(t, k, d) <==> PathNames(t, k, d)
  {
  }

  /** The vinfo row of the disk's VM, if there is one. */
  ghost predicate IsRowOfDisk(t: Tables, k: int, info: Option<InfoRow>)
    requires 0 <= k < |t.disks|
  {
    match info
    case Some(row) => row in t.infos && row.vmID.Some? && row.vmID == t.disks[k].vmID
    case None => forall i :: 0 <= i < |t.infos| && t.infos[i].vmID.Some? ==> t.infos[i].vmID != t.disks[k].vmID
  }

  ghost predicate IsOnlyShared(t: Tables, k: int, d: int, info: Option<InfoRow>)
    requires 0 <= k < |t.disks| && 0 <= d < |t.datastores|
  {
    && SharesHost(t, d, info)
    && forall e :: 0 <= e < |t.datastores| && PathNames(t, k, e) && SharesHost(t, e, info) ==> e == d
  }

  /** A disk resolves to a datastore exactly if its path names it, and it is the only one named or the
      only one named that shares a host with the VM. */
  lemma ResolvesExactly(t: Tables, k: int, d: int, info: Option<InfoRow>)
    requires 0 <= k < |t.disks| && 0 <= d < |t.datastores| && Keyed(t.infos) && IsRowOfDisk(t, k, info)
    ensures ResolvesTo(t, k, d) <==>
      && PathNames(t, k, d)
      && (|| (forall e :: 0 <= e < |t.datastores| && PathNames(t, k, e) ==> e == d)
          || IsOnlyShared(t, k, d, info))
  {
    assert IsVMRow(t, k, info) by {
      assert forall row :: row in t.infos ==> row.vmID.Some?;
    }
    UniqueVMResolution(t, k, d, info);
    forall e | 0 <= e < |t.datastores|
      ensures NameMatches(t, k, e) <==> PathNames(t, k, e)
      ensures HostMatch(t, e, info) <==> SharesHost(t, e, info)
      ensures NamedAndMatched(t, k, e, info) <==> PathNames(t, k, e) && SharesHost(t, e, info)
    {
      PathNamesExactly(t, k, e);
      HostMatchExactly(t, e, info);
    }
    hide ResolvesTo, PathNames, SharesHost, NameMatches, HostMatch, NamedAndMatched, Keyed, IsRowOfDisk, IsVMRow;
  }

  /** If the VM's host is one host, and of the datastores a path names exactly one lists that host, by
      name or by object ID, the disk resolves to that datastore. */
  lemma HostSettles(t: Tables, k: int, d: int, row: InfoRow, i: int, p: int)
    requires 0 <= k < |t.disks| && 0 <= d < |t.datastores| && Keyed(t.infos) && IsRowOfDisk(t, k, Some(row))
    requires PathNames(t, k, d) && 0 <= p < |Pieces(t, d)|
    requires row.host.Some? && t.text.trim(row.host.value) != "" && NamesOnly(t, t.text.trim(row.host.value), i)
    requires t.text.trim(Pieces(t, d)[p]) != "" && NamesOnly(t, t.text.trim(Pieces(t, d)[p]), i)
    requires forall e, q :: 0 <= e < |t.datastores| && e != d && PathNames(t, k, e) && 0 <= q < |Pieces(t, e)| ==>
      !NamesHost(t, t.text.trim(Pieces(t, e)[q]), t.hosts[i])
    ensures forall e :: 0 <= e < |t.datastores| ==> (ResolvesTo(t, k, e) <==> e == d)
  {
    var info := Some(row);
    var at :| 0 <= at < |t.infos| && t.infos[at] == row;
    assert IsListed(t, t.text.trim(t.infos[at].host.value));
    assert IsListed(t, t.text.trim(Pieces(t, d)[p]));
    assert SharesHostAt(t, d, row.host.value, i, p);
    forall e | 0 <= e < |t.datastores| && e != d && PathNames(t, k, e)
      ensures !SharesHost(t, e, info)
    {
      forall j, q
        ensures !SharesHostAt(t, e, row.host.value, j, q)
      {
        hide IsListed;
      }
    }
    forall e | 0 <= e < |t.datastores|
      ensures ResolvesTo(t, k, e) <==> e == d
    {
      ResolvesExactly(t, k, e, info);
      hide ResolvesTo, PathNames, Keyed, IsRowOfDisk, NamesOnly, NamesHost, SharesHost, IsListed;
    }
  }

  // ----- the query for one VM

  lemma {:induction false} ForVMExactly(rows: seq<Candidate>, vm: string, r: Candidate)
    ensures multiset(ForVM(rows, vm))[r] == if r.vmID == Some(vm) then multiset(rows)[r] else 0
  {
    if rows != [] {
      ForVMExactly(Front(rows), vm, r);
      assert rows == Front(rows) + [Last(rows)];
    }
  }

  /** The query for one VM answers each row as often as the query for all VMs, if it is that VM's, and
      no row of any other. */
  lemma QueryForVMExactly(t: Tables, vm: string, r: Candidate)
    ensures multiset(StorageDiskDatastores(t, Some(vm)))[r]
      == if r.vmID == Some(vm) then multiset(StorageDiskDatastores(t, None))[r] else 0
  {
    FilterPushdown(t, vm);
    ForVMExactly(StorageDiskDatastores(t, None), vm, r);
  }

  /** Every candidate belongs to a disk and carries that disk's VM ID. */
  lemma RowsCarryVM(t: Tables, r: Candidate)
    requires r in StorageDiskDatastores(t, None)
    ensures 0 <= r.disk < |t.disks| && 0 <= r.datastore < |t.datastores| && r.vmID == t.disks[r.disk].vmID
  {
    var all := DiskCandidates(t, |t.disks|);
    QualifyMembers(all, all, r);
    DiskCandidatesShape(t, |t.disks|, r);
    RowsUpToShape(t, r.disk, |t.datastores|, r);
  }

  /** Two datastores of one name, of which one lists the VM's host by name: the disk resolves to it. */
  lemma HostSettlesExample()
    ensures var text := TextFunctions(s => s, s => s, s => [s], s => "ds1");
      var t := Tables(text, [DatastoreRow(Some("ds1"), Some("esx1")), DatastoreRow(Some("ds1"), Some("esx2"))],
                      [HostRow(Some("host-1"), Some("esx1"), None)], [InfoRow(Some("vm1"), Some("esx1"))],
                      [DiskRow(Some("vm1"), Some("[ds1] a.vmdk"), None)]);
      ResolvesTo(t, 0, 0) && !ResolvesTo(t, 0, 1)
  {
    var text := TextFunctions(s => s, s => s, s => [s], s => "ds1");
    var t := Tables(text, [DatastoreRow(Some("ds1"), Some("esx1")), DatastoreRow(Some("ds1"), Some("esx2"))],
                    [HostRow(Some("host-1"), Some("esx1"), None)], [InfoRow(Some("vm1"), Some("esx1"))],
                    [DiskRow(Some("vm1"), Some("[ds1] a.vmdk"), None)]);
    assert Pieces(t, 0) == ["esx1"] && Pieces(t, 1) == ["esx2"];
    assert "esx1"[3] != "esx2"[3];
    assert t.infos[0] in t.infos;
    HostSettles(t, 0, 0, t.infos[0], 0, 0);
  }
}
