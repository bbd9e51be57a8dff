/** What it means for the index to agree with the files, and what keeps it so. */
module StorageIndex {
  import opened Bytes
  import opened StorageLog

  /** The records of every tom, by tom id. */
  type Logs = map<nat, seq<Entry>>

  ghost predicate Formed(logs: Logs) {
    forall t :: t in logs ==> t < NO_TOM && AllWellFormed(logs[t])
  }

  ghost predicate At(logs: Logs, t: nat, i: int) {
    t in logs && 0 <= i < |logs[t]|
  }

  /** No uuid was used twice. */
  ghost predicate Unique(logs: Logs) {
    forall t, i, u, j :: At(logs, t, i) && At(logs, u, j) && logs[t][i].uuid == logs[u][j].uuid ==> t == u && i == j
  }

  ghost predicate Unused(logs: Logs, uuid: Uuid) {
    forall t, i :: At(logs, t, i) ==> logs[t][i].uuid != uuid
  }

  ghost predicate LiveAt(logs: Logs, t: nat, i: int, uuid: Uuid) {
    At(logs, t, i) && logs[t][i].uuid == uuid && Live(logs[t][i])
  }

  /** The index maps exactly the uuids of undeleted records, each to its record. */
  ghost predicate Indexes(index: map<Uuid, Record>, logs: Logs) {
    && (forall t, i {:trigger At(logs, t, i)} :: At(logs, t, i) && Live(logs[t][i]) ==>
          logs[t][i].uuid in index && index[logs[t][i].uuid] == RecordOf(t, logs[t], i))
    && (forall uuid :: uuid in index ==> exists t, i :: LiveAt(logs, t, i, uuid))
  }

  /** At most one index agrees with the files. */
  lemma IndexUnique(a: map<Uuid, Record>, b: map<Uuid, Record>, logs: Logs)
    requires Indexes(a, logs) && Indexes(b, logs)
    ensures a == b
  {
    IndexIncluded(a, b, logs);
    IndexIncluded(b, a, logs);
  }

  lemma IndexIncluded(a: map<Uuid, Record>, b: map<Uuid, Record>, logs: Logs)
    requires Indexes(a, logs) && Indexes(b, logs)
    ensures forall u :: u in a ==> u in b && a[u] == b[u]
  {
    forall u | u in a
      ensures u in b && a[u] == b[u]
    {
      var t, i :| LiveAt(logs, t, i, u);
      assert At(logs, t, i);
    }
  }

  function Appended(logs: Logs, t: nat, e: Entry): Logs
    requires t in logs
  {
    logs[t := logs[t] + [e]]
  }

  lemma AppendFormed(logs: Logs, t: nat, e: Entry)
    requires Formed(logs) && t in logs && WellFormed(e)
    ensures Formed(Appended(logs, t, e))
  {
  }

  lemma AppendUnique(logs: Logs, t: nat, e: Entry)
    requires Unique(logs) && t in logs && Unused(logs, e.uuid)
    ensures Unique(Appended(logs, t, e))
  {
    var logs' := Appended(logs, t, e);
    forall u, i | At(logs', u, i) && !(u == t && i == |logs[t]|)
      ensures At(logs, u, i) && logs'[u][i] == logs[u][i]
    {
    }
  }

  lemma AppendIndexes(index: map<Uuid, Record>, logs: Logs, t: nat, e: Entry)
    requires Indexes(index, logs) && t in logs && Unused(logs, e.uuid)
    ensures var i := |logs[t]|;
      Indexes(if Live(e) then index[e.uuid := RecordOf(t, Appended(logs, t, e)[t], i)] else index, Appended(logs, t, e))
  {
    var logs', n := Appended(logs, t, e), |logs[t]|;
    var index' := if Live(e) then index[e.uuid := RecordOf(t, logs'[t], n)] else index;
    assert logs'[t][..n] == logs[t];
    forall u, i | At(logs', u, i) && Live(logs'[u][i])
      ensures logs'[u][i].uuid in index' && index'[logs'[u][i].uuid] == RecordOf(u, logs'[u], i)
    {
      if u != t || i < n {
        assert At(logs, u, i);
        if u == t {
          OffsetPrefix(logs'[t], n, i);
        }
      }
    }
    forall uuid | uuid in index'
      ensures exists u, i :: LiveAt(logs', u, i, uuid)
    {
      if Live(e) && uuid == e.uuid {
        assert LiveAt(logs', t, n, uuid);
      } else {
        var u, i :| LiveAt(logs, u, i, uuid);
        assert LiveAt(logs', u, i, uuid);
      }
    }
  }

  function Deleted(logs: Logs, t: nat, i: nat): Logs
    requires t in logs && i < |logs[t]|
  {
    logs[t := Marked(logs[t], i)]
  }

  lemma DeleteFormed(logs: Logs, t: nat, i: nat)
    requires Formed(logs) && At(logs, t, i)
    ensures Formed(Deleted(logs, t, i))
  {
  }

  lemma DeleteIndexes(index: map<Uuid, Record>, logs: Logs, t: nat, i: nat)
    requires Unique(logs) && Indexes(index, logs) && At(logs, t, i)
    ensures Unique(Deleted(logs, t, i))
    ensures Indexes(index - {logs[t][i].uuid}, Deleted(logs, t, i))
  {
    var logs', gone := Deleted(logs, t, i), logs[t][i].uuid;
    var index' := index - {gone};
    forall u, j | At(logs', u, j)
      ensures At(logs, u, j) && logs'[u][j].uuid == logs[u][j].uuid
      ensures (u != t || j != i) ==> logs'[u][j] == logs[u][j] && logs[u][j].uuid != gone
    {
    }
    forall u, j | At(logs', u, j) && Live(logs'[u][j])
      ensures logs'[u][j].uuid in index' && index'[logs'[u][j].uuid] == RecordOf(u, logs'[u], j)
    {
      assert At(logs, u, j);
      if u == t {
        MarkedOffset(logs[t], i, j);
      }
    }
    forall uuid | uuid in index'
      ensures exists u, j :: LiveAt(logs', u, j, uuid)
    {
      var u, j :| LiveAt(logs, u, j, uuid);
      assert LiveAt(logs', u, j, uuid);
    }
  }
}
