/** Export of the management state and its replacement from a recovery package
    (`internal/managementstate/recovery.go`). */
module StateRecovery {
  import opened Prelude
  import opened Ordering
  import opened Text
  import opened ManagementState

  // ---------- Rows ----------

  type Rows<T> = seq<(string, T)>

  function RowKey<T>(row: (string, T)): Key { [row.0] }

  predicate DistinctIds<T>(rows: Rows<T>) { forall i, j :: 0 <= i < j < |rows| ==> rows[i].0 != rows[j].0 }

  predicate HasId<T>(rows: Rows<T>, id: string) { exists i :: 0 <= i < |rows| && rows[i].0 == id }

  function Ids<T>(rows: Rows<T>): (ids: set<string>)
    ensures forall id :: id in ids <==> HasId(rows, id)
  {
    set i | 0 <= i < |rows| :: rows[i].0
  }

  /** The table holds the rows and nothing else. */
  ghost predicate HoldsRows<T>(m: map<string, T>, rows: Rows<T>) {
    && (forall i :: 0 <= i < |rows| ==> rows[i].0 in m && m[rows[i].0] == rows[i].1)
    && (forall id :: id in m ==> HasId(rows, id))
  }

  /** What a query ordered by ID returns. */
  ghost predicate IsListing<T(!new)>(m: map<string, T>, rows: Rows<T>) {
    DistinctIds(rows) && HoldsRows(m, rows) && SortedBy(rows, (row: (string, T)) => RowKey(row))
  }

  /** An insertion fails on a primary key in use, a row that violates a check or a foreign key, and a
      clash with a row under a uniqueness constraint. */
  function InsertRow<T>(m: map<string, T>, row: (string, T), fits: T -> bool, clash: (T, T) -> bool): Option<map<string, T>> {
    if row.0 in m || !fits(row.1) || (exists k :: k in m && clash(m[k], row.1)) then None else Some(m[row.0 := row.1])
  }

  function InsertRows<T>(rows: Rows<T>, fits: T -> bool, clash: (T, T) -> bool): Option<map<string, T>> {
    if rows == [] then Some(map[])
    else match InsertRows(rows[..|rows|-1], fits, clash)
      case None => None
      case Some(m) => InsertRow(m, rows[|rows|-1], fits, clash)
  }

  /** No row breaks a constraint. */
  ghost predicate Insertable<T(!new)>(rows: Rows<T>, fits: T -> bool, clash: (T, T) -> bool) {
    && DistinctIds(rows)
    && (forall i :: 0 <= i < |rows| ==> fits(rows[i].1))
    && (forall i, j :: 0 <= i < j < |rows| ==> !clash(rows[i].1, rows[j].1))
  }

  lemma HasIdSnoc<T>(rows: Rows<T>, id: string)
    requires rows != []
    ensures HasId(rows, id) <==> HasId(rows[..|rows|-1], id) || rows[|rows|-1].0 == id
  {
    var before := rows[..|rows|-1];
    assert forall i :: 0 <= i < |before| ==> before[i] == rows[i];
    if HasId(before, id) {
      var i :| 0 <= i < |before| && before[i].0 == id;
      assert rows[i].0 == id;
    }
  }

  lemma LastInsertable<T(!new)>(rows: Rows<T>, m: map<string, T>, fits: T -> bool, clash: (T, T) -> bool)
    requires rows != [] && HoldsRows(m, rows[..|rows|-1]) && Insertable(rows[..|rows|-1], fits, clash)
    requires InsertRow(m, rows[|rows|-1], fits, clash).Some?
    ensures Insertable(rows, fits, clash)
  {
    var n := |rows| - 1;
    var before, last := rows[..n], rows[n];
    forall i | 0 <= i < n ensures rows[i].0 != last.0 && !clash(rows[i].1, last.1) {
      assert before[i] == rows[i] && before[i].0 in m;
    }
    assert forall i :: 0 <= i < n ==> before[i] == rows[i];
  }

  lemma InsertedLast<T(!new)>(rows: Rows<T>, m: map<string, T>, fits: T -> bool, clash: (T, T) -> bool)
    requires rows != [] && HoldsRows(m, rows[..|rows|-1]) && Insertable(rows[..|rows|-1], fits, clash)
    requires InsertRow(m, rows[|rows|-1], fits, clash).Some?
    ensures Insertable(rows, fits, clash) && HoldsRows(m[rows[|rows|-1].0 := rows[|rows|-1].1], rows)
  {
    LastInsertable(rows, m, fits, clash);
    hide Insertable;
    var n := |rows| - 1;
    var before, last := rows[..n], rows[n];
    assert forall i :: 0 <= i < n ==> before[i] == rows[i] && before[i].0 in m;
    forall k | k in m || k == last.0 ensures HasId(rows, k) {
      HasIdSnoc(rows, k);
    }
  }

  lemma NotInsertedLast<T(!new)>(rows: Rows<T>, m: map<string, T>, fits: T -> bool, clash: (T, T) -> bool)
    requires rows != [] && HoldsRows(m, rows[..|rows|-1]) && InsertRow(m, rows[|rows|-1], fits, clash).None?
    ensures !Insertable(rows, fits, clash)
  {
    var n := |rows| - 1;
    var before, last := rows[..n], rows[n];
    if Insertable(rows, fits, clash) {
      forall k | k in m ensures k != last.0 && !clash(m[k], last.1) {
        assert HasId(before, k);
        var i :| 0 <= i < |before| && before[i].0 == k;
        assert before[i] == rows[i];
      }
    }
  }

  /** Inserting row by row succeeds exactly if no row breaks a constraint. */
  lemma {:induction false} InsertsExactly<T(!new)>(rows: Rows<T>, fits: T -> bool, clash: (T, T) -> bool)
    ensures InsertRows(rows, fits, clash).Some? <==> Insertable(rows, fits, clash)
    ensures InsertRows(rows, fits, clash).Some? ==> HoldsRows(InsertRows(rows, fits, clash).value, rows)
    decreases |rows|
  {
    if rows != [] {
      var before := rows[..|rows|-1];
      InsertsExactly(before, fits, clash);
      if InsertRows(rows, fits, clash).Some? {
        InsertedLast(rows, InsertRows(before, fits, clash).value, fits, clash);
      } else if InsertRows(before, fits, clash).Some? {
        NotInsertedLast(rows, InsertRows(before, fits, clash).value, fits, clash);
      } else if Insertable(rows, fits, clash) {
        assert forall i :: 0 <= i < |before| ==> before[i] == rows[i];
      }
    }
  }

  lemma {:induction false} InsertFails<T(!new)>(rows: Rows<T>, fits: T -> bool, clash: (T, T) -> bool, k: nat)
    requires k <= |rows| && InsertRows(rows[..k], fits, clash).None?
    ensures InsertRows(rows, fits, clash).None?
    decreases |rows|
  {
    if k == |rows| {
      assert rows[..k] == rows;
    } else {
      assert rows[..|rows|-1][..k] == rows[..k];
      InsertFails(rows[..|rows|-1], fits, clash, k);
    }
  }

  method Insert<T(!new)>(rows: Rows<T>, fits: T -> bool, clash: (T, T) -> bool) returns (r: Option<map<string, T>>)
    ensures r == InsertRows(rows, fits, clash)
  {
    var m: map<string, T> := map[];
    for i := 0 to |rows|
      invariant InsertRows(rows[..i], fits, clash) == Some(m)
    {
      assert rows[..i + 1][..i] == rows[..i];
      var next := InsertRow(m, rows[i], fits, clash);
      if next.None? {
        InsertFails(rows, fits, clash, i + 1);
        return None;
      }
      m := next.value;
    }
    assert rows[..|rows|] == rows;
    return Some(m);
  }

  lemma SameTable<T>(m: map<string, T>, m': map<string, T>, rows: Rows<T>)
    requires HoldsRows(m, rows) && HoldsRows(m', rows)
    ensures m == m'
  {
    forall k | k in m ensures m'[k] == m[k] {
      assert HasId(rows, k);
      var i :| 0 <= i < |rows| && rows[i].0 == k;
    }
  }

  /** Inserting a listing of a table gives the table back. */
  lemma ListingInserts<T(!new)>(m: map<string, T>, rows: Rows<T>, fits: T -> bool, clash: (T, T) -> bool)
    requires DistinctIds(rows) && HoldsRows(m, rows)
    requires (forall k :: k in m ==> fits(m[k])) && (forall j, k :: j in m && k in m && j != k ==> !clash(m[j], m[k]))
    ensures InsertRows(rows, fits, clash) == Some(m)
  {
    assert Insertable(rows, fits, clash);
    hide Insertable;
    InsertsExactly(rows, fits, clash);
    hide HoldsRows;
    SameTable(m, InsertRows(rows, fits, clash).value, rows);
  }

  ghost predicate Found<T(!new)>(m: map<string, T>, todo: set<string>, found: Rows<T>) {
    && todo <= m.Keys && DistinctIds(found) && Ids(found) == m.Keys - todo
    && forall i :: 0 <= i < |found| ==> found[i].0 in m && m[found[i].0] == found[i].1
  }

  lemma FindOne<T(!new)>(m: map<string, T>, todo: set<string>, found: Rows<T>, id: string)
    requires Found(m, todo, found) && id in todo
    ensures Found(m, todo - {id}, found + [(id, m[id])])
  {
    AddId(found, id, m[id]);
  }

  /** A listing in the order of the IDs. */
  method ListRows<T(!new)>(m: map<string, T>) returns (rows: Rows<T>)
    ensures IsListing(m, rows)
  {
    var todo := m.Keys;
    var found: Rows<T> := [];
    assert Found(m, todo, found);
    while todo != {}
      invariant Found(m, todo, found)
      decreases |todo|
    {
      var id :| id in todo;
      FindOne(m, todo, found, id);
      found := found + [(id, m[id])];
      todo := todo - {id};
    }
    rows := Sort(found, (row: (string, T)) => RowKey(row));
    assert HoldsRows(m, found);
    SortedListing(m, found, rows);
  }

  lemma AddId<T>(found: Rows<T>, id: string, t: T)
    requires DistinctIds(found) && id !in Ids(found)
    ensures DistinctIds(found + [(id, t)]) && Ids(found + [(id, t)]) == Ids(found) + {id}
  {
    var now := found + [(id, t)];
    assert now[..|now|-1] == found;
    forall k ensures k in Ids(now) <==> k in Ids(found) + {id} {
      HasIdSnoc(now, k);
    }
    forall i, j | 0 <= i < j < |now| ensures now[i].0 != now[j].0 {
      assert j == |found| ==> HasId(found, found[i].0);
    }
  }

  lemma HoldsReordered<T(!new)>(m: map<string, T>, found: Rows<T>, rows: Rows<T>)
    requires HoldsRows(m, found) && IsPermutation(rows, found)
    ensures HoldsRows(m, rows)
  {
    PermutationMembers(rows, found);
    forall i | 0 <= i < |rows| ensures rows[i].0 in m && m[rows[i].0] == rows[i].1 {
      assert rows[i] in found;
      var j :| 0 <= j < |found| && found[j] == rows[i];
    }
    forall id | id in m ensures HasId(rows, id) {
      assert HasId(found, id);
      var j :| 0 <= j < |found| && found[j].0 == id;
      assert found[j] in rows;
      var i :| 0 <= i < |rows| && rows[i] == found[j];
    }
  }

  lemma SortedListing<T(!new)>(m: map<string, T>, found: Rows<T>, rows: Rows<T>)
    requires DistinctIds(found) && HoldsRows(m, found) && rows == Sort(found, (row: (string, T)) => RowKey(row))
    ensures IsListing(m, rows)
  {
    SortSorts(found, (row: (string, T)) => RowKey(row));
    PairwiseReordered(found, rows, (a: (string, T), b: (string, T)) => a.0 != b.0);
    HoldsReordered(m, found, rows);
  }

  // ---------- Recovery states ----------

  const SCHEMA := 3

  datatype SecretMeta = SecretMeta(name: string, origin: Origin, createdAt: string, rotatedAt: string, rotations: int, isSet: bool)

  datatype Snapshot = Snapshot(version: int, targets: Rows<Target>, artifacts: Rows<SourceArtifact>, workspaces: Rows<Workspace>,
                               github: Option<Github>, secrets: Rows<SecretMeta>, bundles: Rows<BundleRow>,
                               records: Rows<RecordRow>, backups: Rows<BackupRow>)

  datatype Recovery = Recovery(snapshot: Snapshot, values: map<string, string>, omitted: seq<string>)

  function Pat(g: Option<Github>): string { if g.Some? then g.value.pat else "" }

  function Meta(x: Secret): SecretMeta { SecretMeta(x.name, x.origin, x.createdAt, x.rotatedAt, x.rotations, x.value.Some?) }

  function MetaTable(secrets: map<string, Secret>): map<string, SecretMeta> { map id | id in secrets :: Meta(secrets[id]) }

  function ModuleKey(m: DesiredModule): Key { [m.instanceId] }

  /** The canonical order of everything in a target that is a set by meaning; `normal` is the one of the
      observed facts. */
  function Normalized(normal: string -> string, t: Target): Target {
    t.(desired := t.desired.(modules := Sort(t.desired.modules, ModuleKey)), observed := normal(t.observed))
  }

  function NormalizedTargets(normal: string -> string, targets: map<string, Target>): map<string, Target> {
    map id | id in targets :: Normalized(normal, targets[id])
  }

  /** The configured PAT, unless it is to be included. */
  predicate Withheld(s: State, includePat: bool, id: string) { !includePat && s.github.Some? && id == s.github.value.pat }

  function Values(s: State, includePat: bool): map<string, string> {
    map id | id in s.secrets && s.secrets[id].value.Some? && !Withheld(s, includePat, id) :: s.secrets[id].value.value
  }

  ghost predicate IsSnapshot(normal: string -> string, s: State, x: Snapshot) {
    && x.version == SCHEMA && x.github == s.github && IsListing(NormalizedTargets(normal, s.targets), x.targets)
    && IsListing(s.artifacts, x.artifacts) && IsListing(s.workspaces, x.workspaces) && IsListing(MetaTable(s.secrets), x.secrets)
    && IsListing(s.bundles, x.bundles) && IsListing(s.records, x.records) && IsListing(s.backups, x.backups)
  }

  ghost predicate IsExport(normal: string -> string, s: State, includePat: bool, r: Recovery) {
    && IsSnapshot(normal, s, r.snapshot) && r.values == Values(s, includePat) && Distinct(r.omitted)
    && forall id :: id in r.omitted <==> id in Omitted(s, includePat)
  }

  method TakeSnapshot(normal: string -> string, s: State) returns (x: Snapshot)
    ensures IsSnapshot(normal, s, x)
  {
    var targets := ListRows(NormalizedTargets(normal, s.targets));
    var artifacts := ListRows(s.artifacts);
    var workspaces := ListRows(s.workspaces);
    var secrets := ListRows(MetaTable(s.secrets));
    var bundles := ListRows(s.bundles);
    var records := ListRows(s.records);
    var backups := ListRows(s.backups);
    x := Snapshot(SCHEMA, targets, artifacts, workspaces, s.github, secrets, bundles, records, backups);
  }

  lemma RowIn<T(!new)>(m: map<string, T>, rows: Rows<T>, id: string) returns (i: nat)
    requires HoldsRows(m, rows) && id in m
    ensures i < |rows| && rows[i] == (id, m[id])
  {
    assert HasId(rows, id);
    i :| 0 <= i < |rows| && rows[i].0 == id;
  }

  /** The secrets that an export omits. */
  function Omitted(s: State, includePat: bool): set<string> {
    set id | id in s.secrets && s.secrets[id].value.Some? && Withheld(s, includePat, id)
  }

  ghost predicate Exported(s: State, includePat: bool, done: set<string>, values: map<string, string>, omitted: seq<string>) {
    && (forall id :: id in values <==> id in done && id in Values(s, includePat))
    && (forall id :: id in values ==> values[id] == Values(s, includePat)[id])
    && (forall id :: id in omitted <==> id in done && id in Omitted(s, includePat))
    && Distinct(omitted)
  }

  method ExportRecovery(normal: string -> string, s: State, includePat: bool) returns (r: Recovery)
    ensures IsExport(normal, s, includePat, r)
  {
    var x := TakeSnapshot(normal, s);
    var values: map<string, string> := map[];
    var omitted: seq<string> := [];
    for i := 0 to |x.secrets|
      invariant Exported(s, includePat, Ids(x.secrets[..i]), values, omitted)
    {
      var id := x.secrets[i].0;
      ExportOne(s, includePat, x.secrets, i, values, omitted);
      if x.secrets[i].1.isSet {
        if x.github.Some? && id == x.github.value.pat && !includePat {
          omitted := omitted + [id];
        } else {
          values := values[id := s.secrets[id].value.value];
        }
      }
    }
    assert x.secrets[..|x.secrets|] == x.secrets;
    AllListed(s, x.secrets);
    ExportedAll(s, includePat, values, omitted);
    r := Recovery(x, values, omitted);
  }

  lemma ExportedAll(s: State, includePat: bool, values: map<string, string>, omitted: seq<string>)
    requires Exported(s, includePat, s.secrets.Keys, values, omitted)
    ensures values == Values(s, includePat) && Distinct(omitted)
    ensures forall id :: id in omitted <==> id in Omitted(s, includePat)
  {
  }

  /** The entry of a secret: omitted, with its value, or without one. */
  lemma ExportedMore(s: State, includePat: bool, done: set<string>, values: map<string, string>, omitted: seq<string>, id: string)
    requires Exported(s, includePat, done, values, omitted) && id in s.secrets && id !in done
    ensures s.secrets[id].value.None? ==> Exported(s, includePat, done + {id}, values, omitted)
    ensures id in Omitted(s, includePat) ==> Exported(s, includePat, done + {id}, values, omitted + [id])
    ensures id in Values(s, includePat) ==> Exported(s, includePat, done + {id}, values[id := s.secrets[id].value.value], omitted)
  {
  }

  lemma ExportOne(s: State, includePat: bool, rows: Rows<SecretMeta>, i: nat, values: map<string, string>, omitted: seq<string>)
    requires IsListing(MetaTable(s.secrets), rows) && i < |rows| && Exported(s, includePat, Ids(rows[..i]), values, omitted)
    ensures var id := rows[i].0;
      && id in s.secrets && (rows[i].1.isSet <==> s.secrets[id].value.Some?)
      && Exported(s, includePat, Ids(rows[..i + 1]),
           if rows[i].1.isSet && !Withheld(s, includePat, id) then values[id := s.secrets[id].value.value] else values,
           if rows[i].1.isSet && Withheld(s, includePat, id) then omitted + [id] else omitted)
  {
    hide Exported;
    ListedSecret(s, rows, i);
    AddId(rows[..i], rows[i].0, rows[i].1);
    assert rows[..i + 1] == rows[..i] + [(rows[i].0, rows[i].1)];
    hide IsListing;
    ExportedMore(s, includePat, Ids(rows[..i]), values, omitted, rows[i].0);
  }

  lemma ListedSecret(s: State, rows: Rows<SecretMeta>, i: nat)
    requires IsListing(MetaTable(s.secrets), rows) && i < |rows|
    ensures rows[i].0 in s.secrets && rows[i].1 == Meta(s.secrets[rows[i].0])
    ensures DistinctIds(rows[..i]) && rows[i].0 !in Ids(rows[..i])
  {
    assert rows[i].0 in MetaTable(s.secrets);
  }

  lemma AllListed(s: State, rows: Rows<SecretMeta>)
    requires IsListing(MetaTable(s.secrets), rows)
    ensures Ids(rows) == s.secrets.Keys
  {
  }

  // ---------- Validation ----------

  predicate SecretEntryOk(r: Recovery, row: (string, SecretMeta)) {
    && (row.1.isSet && row.0 !in r.values ==> row.0 in r.omitted)
    && (!row.1.isSet ==> row.0 !in r.values)
    && (row.0 in r.omitted ==> row.1.isSet)
  }

  predicate SetSecretListed(r: Recovery, id: string) {
    exists i :: 0 <= i < |r.snapshot.secrets| && r.snapshot.secrets[i].0 == id && r.snapshot.secrets[i].1.isSet
  }

  predicate TargetEntryOk(r: Recovery, row: (string, Target)) {
    && row.0 != "" && row.1.address != "" && row.1.sshUser != "" && ValidDesired(row.1.desired)
    && (row.1.identity != "" ==> SetSecretListed(r, row.1.identity) && row.1.identity in r.values)
  }

  /** Secrets, omissions, material and GitHub configuration fit together. */
  ghost predicate ValidSecrets(r: Recovery) {
    var x := r.snapshot;
    && (forall i :: 0 <= i < |x.secrets| ==> x.secrets[i].0 != "" && x.secrets[i].1.name != "") && DistinctIds(x.secrets)
    && (forall id :: id in r.omitted ==> id != "" && id == Pat(x.github)) && Distinct(r.omitted)
    && (forall i :: 0 <= i < |x.secrets| ==> SecretEntryOk(r, x.secrets[i]))
    && (forall id :: id in r.values ==> id in Ids(x.secrets))
    && GithubOk(x.github, Ids(x.secrets))
  }

  ghost predicate ValidTargets(r: Recovery) {
    r.snapshot.targets != [] && forall i :: 0 <= i < |r.snapshot.targets| ==> TargetEntryOk(r, r.snapshot.targets[i])
  }

  /** `validateRecoverySnapshot` accepts. It does not ask whether the secrets of desired modules exist. */
  ghost predicate ValidRecovery(r: Recovery) { ValidSecrets(r) && ValidTargets(r) }

  ghost predicate SecretsRead(rows: Rows<SecretMeta>, i: nat, byId: map<string, SecretMeta>) {
    && i <= |rows| && HoldsRows(byId, rows[..i]) && DistinctIds(rows[..i])
    && forall k :: 0 <= k < i ==> rows[k].0 != "" && rows[k].1.name != ""
  }

  lemma SecretRead(rows: Rows<SecretMeta>, i: nat, byId: map<string, SecretMeta>)
    requires i < |rows| && SecretsRead(rows, i, byId)
    ensures rows[i].0 in byId ==> !DistinctIds(rows)
    ensures rows[i].0 !in byId && rows[i].0 != "" && rows[i].1.name != "" ==> SecretsRead(rows, i + 1, byId[rows[i].0 := rows[i].1])
  {
    var row := rows[i];
    if row.0 in byId {
      assert HasId(rows[..i], row.0);
      var k :| 0 <= k < i && rows[..i][k].0 == row.0;
    } else {
      AddId(rows[..i], row.0, row.1);
      assert rows[..i + 1] == rows[..i] + [(row.0, row.1)];
      assert Ids(rows[..i + 1]) == Ids(rows[..i]) + {row.0};
    }
  }

  method ValidateSecrets(r: Recovery) returns (ok: bool, byId: map<string, SecretMeta>)
    ensures ok <==> (forall i :: 0 <= i < |r.snapshot.secrets| ==> r.snapshot.secrets[i].0 != "" && r.snapshot.secrets[i].1.name != "")
                    && DistinctIds(r.snapshot.secrets)
    ensures ok ==> HoldsRows(byId, r.snapshot.secrets)
  {
    var rows := r.snapshot.secrets;
    ok, byId := true, map[];
    for i := 0 to |rows|
      invariant ok && SecretsRead(rows, i, byId)
    {
      SecretRead(rows, i, byId);
      if rows[i].0 == "" || rows[i].1.name == "" || rows[i].0 in byId {
        ok := false;
        return;
      }
      byId := byId[rows[i].0 := rows[i].1];
    }
    assert rows[..|rows|] == rows;
  }

  method ValidateOmitted(r: Recovery) returns (ok: bool)
    ensures ok <==> (forall id :: id in r.omitted ==> id != "" && id == Pat(r.snapshot.github)) && Distinct(r.omitted)
  {
    for i := 0 to |r.omitted|
      invariant forall k :: 0 <= k < i ==> r.omitted[k] != "" && r.omitted[k] == Pat(r.snapshot.github)
      invariant Distinct(r.omitted[..i])
    {
      var id := r.omitted[i];
      assert id in r.omitted;
      if id == "" || id != Pat(r.snapshot.github) {
        return false;
      }
      if id in r.omitted[..i] {
        var k :| 0 <= k < i && r.omitted[..i][k] == id;
        assert r.omitted[k] == r.omitted[i];
        return false;
      }
    }
    assert r.omitted[..|r.omitted|] == r.omitted;
    return true;
  }

  method ValidateMaterial(r: Recovery, byId: map<string, SecretMeta>) returns (ok: bool)
    requires HoldsRows(byId, r.snapshot.secrets)
    ensures ok <==> (forall i :: 0 <= i < |r.snapshot.secrets| ==> SecretEntryOk(r, r.snapshot.secrets[i]))
                    && (forall id :: id in r.values ==> id in Ids(r.snapshot.secrets))
  {
    var rows := r.snapshot.secrets;
    for i := 0 to |rows|
      invariant forall k :: 0 <= k < i ==> SecretEntryOk(r, rows[k])
    {
      var id, isSet := rows[i].0, rows[i].1.isSet;
      if (isSet && id !in r.values && id !in r.omitted) || (!isSet && id in r.values) || (id in r.omitted && !isSet) {
        return false;
      }
    }
    ok := forall id :: id in r.values ==> id in byId;
  }

  method ValidateTargets(r: Recovery, byId: map<string, SecretMeta>) returns (ok: bool)
    requires HoldsRows(byId, r.snapshot.secrets)
    ensures ok <==> forall i :: 0 <= i < |r.snapshot.targets| ==> TargetEntryOk(r, r.snapshot.targets[i])
  {
    for i := 0 to |r.snapshot.targets|
      invariant forall k :: 0 <= k < i ==> TargetEntryOk(r, r.snapshot.targets[k])
    {
      var id, t := r.snapshot.targets[i].0, r.snapshot.targets[i].1;
      if id == "" || t.address == "" || t.sshUser == "" {
        return false;
      }
      IdentityListed(r, byId, t.identity);
      if t.identity != "" && (t.identity !in byId || !byId[t.identity].isSet || t.identity !in r.values) {
        return false;
      }
      var desired := ValidateDesired(t.desired);
      if !desired {
        return false;
      }
    }
    return true;
  }

  lemma IdentityListed(r: Recovery, byId: map<string, SecretMeta>, id: string)
    requires HoldsRows(byId, r.snapshot.secrets)
    ensures SetSecretListed(r, id) <==> id in byId && byId[id].isSet
  {
    if id in byId && byId[id].isSet {
      var i := RowIn(byId, r.snapshot.secrets, id);
    }
  }

  method ValidateRecovery(r: Recovery) returns (ok: bool)
    ensures ok <==> ValidRecovery(r)
  {
    if r.snapshot.targets == [] {
      return false;
    }
    var secrets, byId := ValidateSecrets(r);
    if !secrets {
      return false;
    }
    var omitted := ValidateOmitted(r);
    if !omitted {
      return false;
    }
    var material := ValidateMaterial(r, byId);
    if !material {
      return false;
    }
    var targets := ValidateTargets(r, byId);
    ok := targets && GithubOk(r.snapshot.github, byId.Keys);
  }

  // ---------- Replacement ----------

  function NeverClash<T>(): (T, T) -> bool { (_, _) => false }

  function Always<T>(): T -> bool { _ => true }

  function SecretRows(r: Recovery): (rows: Rows<Secret>)
    ensures |rows| == |r.snapshot.secrets| && forall i :: 0 <= i < |rows| ==> rows[i].0 == r.snapshot.secrets[i].0
  {
    seq(|r.snapshot.secrets|, i requires 0 <= i < |r.snapshot.secrets| =>
      var id, m := r.snapshot.secrets[i].0, r.snapshot.secrets[i].1;
      (id, Secret(m.name, m.origin, m.createdAt, m.rotatedAt, m.rotations, if id in r.values then Some(r.values[id]) else None)))
  }

  function SecretFits(): Secret -> bool { (x: Secret) => KnownOrigin(x.origin) && x.rotations >= 0 }

  function SourceFits(): SourceArtifact -> bool { (a: SourceArtifact) => a.kind != OtherSource }

  function WorkspaceFits(artifacts: set<string>): Workspace -> bool { (w: Workspace) => w.kind != OtherSource && w.base in artifacts }

  function TargetFits(): Target -> bool { (t: Target) => KnownTrust(t.trust) }

  function RecordFits(bundles: set<string>): RecordRow -> bool { (x: RecordRow) => x.bundle in bundles }

  function BackupFits(): BackupRow -> bool { (b: BackupRow) => b.kind != OtherBackup }

  datatype Tables = Tables(secrets: Option<map<string, Secret>>, artifacts: Option<map<string, SourceArtifact>>,
                           workspaces: Option<map<string, Workspace>>, targets: Option<map<string, Target>>,
                           bundles: Option<map<string, BundleRow>>, records: Option<map<string, RecordRow>>,
                           backups: Option<map<string, BackupRow>>)
  {
    predicate Complete() {
      secrets.Some? && artifacts.Some? && workspaces.Some? && targets.Some? && bundles.Some? && records.Some? && backups.Some?
    }
  }

  /** What the insertions make of the tables, with the imported package registered as a backup. */
  function TablesOf(r: Recovery, id: string, imported: BackupRow): Tables {
    var x := r.snapshot;
    Tables(InsertRows(SecretRows(r), SecretFits(), NeverClash()),
           InsertRows(x.artifacts, SourceFits(), SameSource),
           InsertRows(x.workspaces, WorkspaceFits(Ids(x.artifacts)), NeverClash()),
           InsertRows(x.targets, TargetFits(), NeverClash()),
           InsertRows(x.bundles, Always(), NeverClash()),
           InsertRows(x.records, RecordFits(Ids(x.bundles)), NeverClash()),
           InsertRows(x.backups + [(id, imported)], BackupFits(), NeverClash()))
  }

  function StateOf(t: Tables, github: Option<Github>): State
    requires t.Complete()
  {
    State(t.targets.value, t.artifacts.value, t.workspaces.value, github, t.secrets.value, t.bundles.value, t.records.value,
          t.backups.value)
  }

  predicate ValidImported(id: string, b: BackupRow) { b.kind == RecoveryPackage && id != "" && b.target != "" }

  /** The replacement of a state, or None for an error. Every user-owned table has to be empty, and the
      trigger of `source_artifacts` aborts the deletion of any row there. */
  ghost function Replaced(s: State, r: Recovery, id: string, imported: BackupRow): Option<State> {
    if r.snapshot.version != SCHEMA || !ValidImported(id, imported) || !ValidRecovery(r) || s != EMPTY then None
    else
      var t := TablesOf(r, id, imported);
      if t.Complete() then Some(StateOf(t, r.snapshot.github)) else None
  }

  /** `ReplaceFromRecovery` on the store; the commit may fail. */
  method ReplaceFromRecovery(store: Store, r: Recovery, id: string, imported: BackupRow, commits: bool) returns (ok: bool)
    modifies store
    ensures ok <==> Replaced(old(store.state), r, id, imported).Some? && commits
    ensures store.state == if ok then Replaced(old(store.state), r, id, imported).value else old(store.state)
  {
    if r.snapshot.version != SCHEMA || !ValidImported(id, imported) {
      return false;
    }
    var valid := ValidateRecovery(r);
    if !valid {
      return false;
    }
    var s := store.state;
    if s.targets != map[] || s.secrets != map[] || s.workspaces != map[] || s.bundles != map[] || s.records != map[] ||
       s.backups != map[] || s.github.Some? {
      return false;
    }
    if s.artifacts != map[] {
      return false;
    }
    assert s == EMPTY;
    var t := InsertTables(r, id, imported);
    ok := t.Complete() && commits;
    if ok {
      store.state := StateOf(t, r.snapshot.github);
    }
  }

  method InsertTables(r: Recovery, id: string, imported: BackupRow) returns (t: Tables)
    ensures t == TablesOf(r, id, imported)
  {
    var x := r.snapshot;
    var secrets := Insert(SecretRows(r), SecretFits(), NeverClash());
    var artifacts := Insert(x.artifacts, SourceFits(), SameSource);
    var workspaces := Insert(x.workspaces, WorkspaceFits(Ids(x.artifacts)), NeverClash());
    var targets := Insert(x.targets, TargetFits(), NeverClash());
    var bundles := Insert(x.bundles, Always(), NeverClash());
    var records := Insert(x.records, RecordFits(Ids(x.bundles)), NeverClash());
    var backups := Insert(x.backups + [(id, imported)], BackupFits(), NeverClash());
    t := Tables(secrets, artifacts, workspaces, targets, bundles, records, backups);
  }

  // ---------- Round trip ----------

  /** A recovery package carries no backup rows. */
  function WithoutBackups(r: Recovery): Recovery { r.(snapshot := r.snapshot.(backups := [])) }

  /** Every target has an address, and the key of each is set and not withheld. */
  ghost predicate Portable(s: State, includePat: bool) {
    && s.targets != map[]
    && forall t :: t in s.targets ==> s.targets[t].address != "" && KeyTravels(s, includePat, s.targets[t].identity)
  }

  predicate KeyTravels(s: State, includePat: bool, id: string) { id != "" ==> id in Values(s, includePat) }

  /** The secrets with the withheld one unset. */
  function RestoredSecrets(s: State, includePat: bool): map<string, Secret> {
    map id | id in s.secrets ::
      if Withheld(s, includePat, id) then s.secrets[id].(value := None) else s.secrets[id]
  }

  function Restored(normal: string -> string, s: State, includePat: bool, id: string, imported: BackupRow): State {
    State(NormalizedTargets(normal, s.targets), s.artifacts, s.workspaces, s.github, RestoredSecrets(s, includePat), s.bundles,
          s.records, map[id := imported])
  }

  lemma SortedDesired(d: Desired, secrets: set<string>)
    requires ValidDesired(d)
    ensures var d' := d.(modules := Sort(d.modules, ModuleKey));
      ValidDesired(d') && (SecretsIn(d', secrets) <==> SecretsIn(d, secrets))
  {
    var sorted := Sort(d.modules, ModuleKey);
    SortSorts(d.modules, ModuleKey);
    PermutationMembers(sorted, d.modules);
    PairwiseReordered(d.modules, sorted, (a: DesiredModule, b: DesiredModule) => a.instanceId != b.instanceId);
  }

  lemma ExportedIds(normal: string -> string, s: State, x: Snapshot)
    requires IsSnapshot(normal, s, x)
    ensures Ids(x.secrets) == s.secrets.Keys && Ids(x.artifacts) == s.artifacts.Keys && Ids(x.bundles) == s.bundles.Keys
    ensures x.targets == [] <==> s.targets == map[]
  {
    hide SortedBy;
    AllListed(s, x.secrets);
    var targets := NormalizedTargets(normal, s.targets);
    if x.targets != [] {
      assert x.targets[0].0 in targets;
    }
    if s.targets != map[] {
      var t :| t in s.targets;
      var i := RowIn(targets, x.targets, t);
    }
  }

  lemma ExportedSecretOk(normal: string -> string, s: State, includePat: bool, r: Recovery, i: nat)
    requires IsExport(normal, s, includePat, r) && i < |r.snapshot.secrets| && SecretsOk(s.secrets)
    ensures SecretEntryOk(r, r.snapshot.secrets[i]) && r.snapshot.secrets[i].0 != "" && r.snapshot.secrets[i].1.name != ""
  {
    var id := r.snapshot.secrets[i].0;
    ListedSecret(s, r.snapshot.secrets, i);
    hide IsListing;
    assert SecretOk(id, s.secrets[id]);
  }

  lemma ExportedTargetOk(normal: string -> string, s: State, includePat: bool, r: Recovery, i: nat)
    requires IsExport(normal, s, includePat, r) && i < |r.snapshot.targets| && TargetsOk(s.targets, s.secrets.Keys)
    ensures var t := r.snapshot.targets[i].0;
      t in s.targets && (TargetEntryOk(r, r.snapshot.targets[i]) <==>
                         s.targets[t].address != "" && KeyTravels(s, includePat, s.targets[t].identity))
  {
    var id, t := r.snapshot.targets[i].0, r.snapshot.targets[i].1;
    assert id in NormalizedTargets(normal, s.targets) && t == NormalizedTargets(normal, s.targets)[id];
    assert TargetOk(id, s.targets[id], s.secrets.Keys);
    SortedDesired(s.targets[id].desired, s.secrets.Keys);
    if t.identity in Values(s, includePat) {
      var k := RowIn(MetaTable(s.secrets), r.snapshot.secrets, t.identity);
    }
  }

  /** Ids, omissions and material of an export, and its GitHub configuration. */
  lemma ExportedMaterial(normal: string -> string, s: State, includePat: bool, r: Recovery)
    requires Inv(s) && IsExport(normal, s, includePat, r)
    ensures DistinctIds(r.snapshot.secrets) && GithubOk(r.snapshot.github, Ids(r.snapshot.secrets))
    ensures forall id :: id in r.values ==> id in Ids(r.snapshot.secrets)
    ensures forall id :: id in r.omitted ==> id != "" && id == Pat(r.snapshot.github)
  {
    ExportedIds(normal, s, r.snapshot);
    hide TargetsOk, SecretsOk, SourcesOk, WorkspacesOk, RecordsOk, BackupsOk, HoldsRows, SortedBy;
  }

  lemma ExportedSecretsValid(normal: string -> string, s: State, includePat: bool, r: Recovery)
    requires Inv(s) && IsExport(normal, s, includePat, r)
    ensures ValidSecrets(WithoutBackups(r))
  {
    var r', x := WithoutBackups(r), r.snapshot;
    ExportedMaterial(normal, s, includePat, r);
    forall i | 0 <= i < |x.secrets| ensures SecretEntryOk(r', x.secrets[i]) && x.secrets[i].0 != "" && x.secrets[i].1.name != "" {
      hide IsExport;
      ExportedSecretOk(normal, s, includePat, r, i);
    }
    hide Inv, SecretEntryOk, IsSnapshot, Values, Omitted, DistinctIds, GithubOk;
  }

  lemma ExportedTargetsValid(normal: string -> string, s: State, includePat: bool, r: Recovery)
    requires Inv(s) && IsExport(normal, s, includePat, r)
    ensures ValidTargets(WithoutBackups(r)) <==> Portable(s, includePat)
  {
    var r', x := WithoutBackups(r), r.snapshot;
    ExportedIds(normal, s, x);
    forall i | 0 <= i < |x.targets|
      ensures x.targets[i].0 in s.targets && (TargetEntryOk(r', x.targets[i]) <==>
        s.targets[x.targets[i].0].address != "" && KeyTravels(s, includePat, s.targets[x.targets[i].0].identity))
    {
      ExportedTargetOk(normal, s, includePat, r, i);
    }
    hide TargetEntryOk, KeyTravels, TargetsOk, SecretsOk, SourcesOk, WorkspacesOk, RecordsOk, BackupsOk, SortedBy;
    if ValidTargets(r') {
      forall t | t in s.targets ensures s.targets[t].address != "" && KeyTravels(s, includePat, s.targets[t].identity) {
        var i := RowIn(NormalizedTargets(normal, s.targets), x.targets, t);
      }
    }
  }

  lemma RestoredListed(normal: string -> string, s: State, includePat: bool, r: Recovery)
    requires IsExport(normal, s, includePat, r)
    ensures HoldsRows(RestoredSecrets(s, includePat), SecretRows(r))
  {
    var rows, m := SecretRows(r), RestoredSecrets(s, includePat);
    forall i | 0 <= i < |rows| ensures rows[i].0 in m && m[rows[i].0] == rows[i].1 {
      ListedSecret(s, r.snapshot.secrets, i);
    }
    forall id | id in m ensures HasId(rows, id) {
      var i := RowIn(MetaTable(s.secrets), r.snapshot.secrets, id);
      assert rows[i].0 == id;
    }
  }

  lemma SecretsImport(normal: string -> string, s: State, includePat: bool, r: Recovery)
    requires Inv(s) && IsExport(normal, s, includePat, r)
    ensures InsertRows(SecretRows(r), SecretFits(), NeverClash()) == Some(RestoredSecrets(s, includePat))
  {
    var rows, m := SecretRows(r), RestoredSecrets(s, includePat);
    RestoredListed(normal, s, includePat, r);
    forall id | id in m ensures SecretFits()(m[id]) {
      assert SecretOk(id, s.secrets[id]);
    }
    hide HoldsRows;
    ListingInserts(m, rows, SecretFits(), NeverClash());
  }

  lemma TargetsImport(normal: string -> string, s: State, x: Snapshot)
    requires Inv(s) && IsSnapshot(normal, s, x)
    ensures InsertRows(x.targets, TargetFits(), NeverClash()) == Some(NormalizedTargets(normal, s.targets))
  {
    forall t | t in s.targets ensures KnownTrust(s.targets[t].trust) {
      assert TargetOk(t, s.targets[t], s.secrets.Keys);
    }
    ListingInserts(NormalizedTargets(normal, s.targets), x.targets, TargetFits(), NeverClash());
  }

  lemma SourcesImport(normal: string -> string, s: State, x: Snapshot)
    requires Inv(s) && IsSnapshot(normal, s, x)
    ensures InsertRows(x.artifacts, SourceFits(), SameSource) == Some(s.artifacts)
    ensures InsertRows(x.workspaces, WorkspaceFits(Ids(x.artifacts)), NeverClash()) == Some(s.workspaces)
  {
    ExportedIds(normal, s, x);
    hide TargetsOk, SecretsOk, RecordsOk, BackupsOk, SortedBy;
    ListingInserts(s.artifacts, x.artifacts, SourceFits(), SameSource);
    ListingInserts(s.workspaces, x.workspaces, WorkspaceFits(Ids(x.artifacts)), NeverClash());
  }

  lemma HistoryImport(normal: string -> string, s: State, x: Snapshot)
    requires Inv(s) && IsSnapshot(normal, s, x)
    ensures InsertRows(x.bundles, Always(), NeverClash()) == Some(s.bundles)
    ensures InsertRows(x.records, RecordFits(Ids(x.bundles)), NeverClash()) == Some(s.records)
  {
    ExportedIds(normal, s, x);
    hide TargetsOk, SecretsOk, SourcesOk, WorkspacesOk, BackupsOk, SortedBy;
    ListingInserts(s.bundles, x.bundles, Always(), NeverClash());
    ListingInserts(s.records, x.records, RecordFits(Ids(x.bundles)), NeverClash());
  }

  lemma BackupImport(id: string, b: BackupRow)
    requires ValidImported(id, b)
    ensures InsertRows([(id, b)], BackupFits(), NeverClash()) == Some(map[id := b])
  {
    ListingInserts(map[id := b], [(id, b)], BackupFits(), NeverClash()) by {
      assert HasId([(id, b)], id) by { assert [(id, b)][0].0 == id; }
    }
  }

  lemma TablesImport(normal: string -> string, s: State, includePat: bool, r: Recovery, id: string, imported: BackupRow)
    requires Inv(s) && IsExport(normal, s, includePat, r) && ValidImported(id, imported)
    ensures TablesOf(WithoutBackups(r), id, imported).Complete()
    ensures StateOf(TablesOf(WithoutBackups(r), id, imported), s.github) == Restored(normal, s, includePat, id, imported)
  {
    hide Inv, IsListing;
    assert SecretRows(WithoutBackups(r)) == SecretRows(r);
    SecretsImport(normal, s, includePat, r);
    TargetsImport(normal, s, r.snapshot);
    SourcesImport(normal, s, r.snapshot);
    HistoryImport(normal, s, r.snapshot);
    BackupImport(id, imported);
    var none: Rows<BackupRow> := [];
    assert none + [(id, imported)] == [(id, imported)];
  }

  /** A package produced from a reachable state is accepted exactly by an entirely empty store, and
      exactly if every target has an address and a set key that travels. The new state has the same
      targets, sources, secrets and history; only a withheld PAT is unset, and the backup list is the
      imported package. */
  lemma ExportImports(normal: string -> string, s: State, includePat: bool, r: Recovery, into: State, id: string, imported: BackupRow)
    requires Inv(s) && IsExport(normal, s, includePat, r) && ValidImported(id, imported)
    ensures Replaced(into, WithoutBackups(r), id, imported).Some? <==> into == EMPTY && Portable(s, includePat)
    ensures Replaced(into, WithoutBackups(r), id, imported).Some? ==>
      Replaced(into, WithoutBackups(r), id, imported).value == Restored(normal, s, includePat, id, imported)
  {
    ExportedSecretsValid(normal, s, includePat, r);
    ExportedTargetsValid(normal, s, includePat, r);
    TablesImport(normal, s, includePat, r, id, imported);
    hide Inv, Portable, ValidSecrets, ValidTargets, TablesOf, Restored;
  }

  lemma RestoredTargets(normal: string -> string, s: State)
    requires TargetsOk(s.targets, s.secrets.Keys)
    ensures TargetsOk(NormalizedTargets(normal, s.targets), s.secrets.Keys)
  {
    forall t | t in s.targets ensures TargetOk(t, Normalized(normal, s.targets[t]), s.secrets.Keys) {
      assert TargetOk(t, s.targets[t], s.secrets.Keys);
      SortedDesired(s.targets[t].desired, s.secrets.Keys);
    }
  }

  /** The restored state satisfies the invariant of reachable states again. */
  lemma RestoredKeeps(normal: string -> string, s: State, includePat: bool, id: string, imported: BackupRow)
    requires Inv(s) && ValidImported(id, imported)
    ensures Inv(Restored(normal, s, includePat, id, imported))
  {
    RestoredTargets(normal, s);
    hide TargetsOk, SourcesOk, WorkspacesOk, RecordsOk;
    var s' := Restored(normal, s, includePat, id, imported);
    assert s'.secrets.Keys == s.secrets.Keys;
    forall x | x in s'.secrets ensures SecretOk(x, s'.secrets[x]) {
      assert SecretOk(x, s.secrets[x]);
    }
  }

  // ---------- Packages of other origin ----------

  /** Every secret of a desired module is in the package. */
  ghost predicate DesiredSecretsListed(r: Recovery) {
    forall i :: 0 <= i < |r.snapshot.targets| ==> SecretsIn(r.snapshot.targets[i].1.desired, Ids(r.snapshot.secrets))
  }

  lemma InsertedRows(r: Recovery, id: string, imported: BackupRow)
    requires TablesOf(r, id, imported).Complete()
    ensures var t := TablesOf(r, id, imported);
      && HoldsRows(t.secrets.value, SecretRows(r)) && HoldsRows(t.targets.value, r.snapshot.targets)
      && (forall x :: x in t.secrets.value ==> SecretFits()(t.secrets.value[x]))
      && (forall x :: x in t.targets.value ==> KnownTrust(t.targets.value[x].trust))
  {
    InsertsExactly(SecretRows(r), SecretFits(), NeverClash());
    InsertsExactly(r.snapshot.targets, TargetFits(), NeverClash());
    var t := TablesOf(r, id, imported);
    forall x | x in t.secrets.value ensures SecretFits()(t.secrets.value[x]) {
      var i := RowIn(t.secrets.value, SecretRows(r), x);
    }
    forall x | x in t.targets.value ensures KnownTrust(t.targets.value[x].trust) {
      var i := RowIn(t.targets.value, r.snapshot.targets, x);
      assert TargetFits()(r.snapshot.targets[i].1);
    }
  }

  lemma InsertedSources(r: Recovery, id: string, imported: BackupRow)
    requires TablesOf(r, id, imported).Complete()
    ensures var t := TablesOf(r, id, imported);
      SourcesOk(t.artifacts.value) && WorkspacesOk(t.workspaces.value, t.artifacts.value.Keys)
  {
    var x, t := r.snapshot, TablesOf(r, id, imported);
    InsertsExactly(x.artifacts, SourceFits(), SameSource);
    InsertsExactly(x.workspaces, WorkspaceFits(Ids(x.artifacts)), NeverClash());
    forall a, b | a in t.artifacts.value && b in t.artifacts.value && a != b
      ensures !SameSource(t.artifacts.value[a], t.artifacts.value[b])
    {
      var i := RowIn(t.artifacts.value, x.artifacts, a);
      var j := RowIn(t.artifacts.value, x.artifacts, b);
      assert i < j || j < i;
      assert SameSource(x.artifacts[i].1, x.artifacts[j].1) <==> SameSource(x.artifacts[j].1, x.artifacts[i].1);
    }
    forall a | a in t.artifacts.value ensures t.artifacts.value[a].kind != OtherSource {
      var i := RowIn(t.artifacts.value, x.artifacts, a);
      assert SourceFits()(x.artifacts[i].1);
    }
    forall w | w in t.workspaces.value
      ensures t.workspaces.value[w].kind != OtherSource && t.workspaces.value[w].base in t.artifacts.value
    {
      var i := RowIn(t.workspaces.value, x.workspaces, w);
      assert WorkspaceFits(Ids(x.artifacts))(x.workspaces[i].1);
    }
  }

  lemma InsertedHistory(r: Recovery, id: string, imported: BackupRow)
    requires TablesOf(r, id, imported).Complete()
    ensures var t := TablesOf(r, id, imported);
      RecordsOk(t.records.value, t.bundles.value.Keys) && BackupsOk(t.backups.value)
  {
    var x, t := r.snapshot, TablesOf(r, id, imported);
    var backups := x.backups + [(id, imported)];
    InsertsExactly(x.bundles, Always(), NeverClash());
    InsertsExactly(x.records, RecordFits(Ids(x.bundles)), NeverClash());
    InsertsExactly(backups, BackupFits(), NeverClash());
    forall k | k in t.records.value ensures t.records.value[k].bundle in t.bundles.value {
      var i := RowIn(t.records.value, x.records, k);
      assert RecordFits(Ids(x.bundles))(x.records[i].1);
    }
    forall k | k in t.backups.value ensures t.backups.value[k].kind != OtherBackup {
      var i := RowIn(t.backups.value, backups, k);
      assert BackupFits()(backups[i].1);
    }
  }

  lemma ImportedTargets(r: Recovery, targets: map<string, Target>, secrets: set<string>)
    requires HoldsRows(targets, r.snapshot.targets) && secrets == Ids(r.snapshot.secrets)
    requires forall i :: 0 <= i < |r.snapshot.targets| ==> TargetEntryOk(r, r.snapshot.targets[i])
    requires forall t :: t in targets ==> KnownTrust(targets[t].trust)
    ensures TargetsOk(targets, secrets) <==> DesiredSecretsListed(r)
  {
    var rows := r.snapshot.targets;
    forall i | 0 <= i < |rows| ensures TargetOk(rows[i].0, rows[i].1, secrets) <==> SecretsIn(rows[i].1.desired, secrets) {
      assert TargetEntryOk(r, rows[i]) && KnownTrust(targets[rows[i].0].trust);
    }
    if DesiredSecretsListed(r) {
      forall t | t in targets ensures TargetOk(t, targets[t], secrets) {
        var i := RowIn(targets, rows, t);
      }
    }
  }

  lemma ImportedSecrets(r: Recovery, secrets: map<string, Secret>)
    requires HoldsRows(secrets, SecretRows(r)) && (forall x :: x in secrets ==> SecretFits()(secrets[x]))
    requires forall i :: 0 <= i < |r.snapshot.secrets| ==> r.snapshot.secrets[i].0 != "" && r.snapshot.secrets[i].1.name != ""
    ensures SecretsOk(secrets) && secrets.Keys == Ids(r.snapshot.secrets)
  {
    forall x | x in secrets ensures SecretOk(x, secrets[x]) && HasId(r.snapshot.secrets, x) {
      var i := RowIn(secrets, SecretRows(r), x);
      assert r.snapshot.secrets[i].0 == x && SecretFits()(secrets[x]);
    }
    forall x | HasId(r.snapshot.secrets, x) ensures x in secrets {
      var i :| 0 <= i < |r.snapshot.secrets| && r.snapshot.secrets[i].0 == x;
      assert SecretRows(r)[i].0 == x;
    }
  }

  /** Import does not ask for the secrets that desired modules name: it leads to a state with the
      invariant exactly if the package lists them all. */
  lemma ImportKeepsExactly(s: State, r: Recovery, id: string, imported: BackupRow)
    requires Replaced(s, r, id, imported).Some?
    ensures Inv(Replaced(s, r, id, imported).value) <==> DesiredSecretsListed(r)
  {
    var t := TablesOf(r, id, imported);
    InsertedRows(r, id, imported);
    InsertedSources(r, id, imported);
    InsertedHistory(r, id, imported);
    hide HoldsRows, SourcesOk, WorkspacesOk, RecordsOk, BackupsOk, TargetsOk, SecretsOk, DesiredSecretsListed, TargetEntryOk, TablesOf;
    ImportedSecrets(r, t.secrets.value);
    ImportedTargets(r, t.targets.value, t.secrets.value.Keys);
  }

  const LOOSE := Recovery(
    Snapshot(SCHEMA,
             [("t", Target("a", "u", "", "", "", Unknown, Desired("", [DesiredModule("i", "p", "1", ["x"], [], "")]), ""))],
             [], [], None, [], [], [], []),
    map[], [])

  lemma LooseIsValid()
    ensures ValidRecovery(LOOSE) && !SecretsIn(LOOSE.snapshot.targets[0].1.desired, Ids(LOOSE.snapshot.secrets))
  {
    var d := LOOSE.snapshot.targets[0].1.desired;
    assert CompleteModule(d.modules[0]) by { assert !IsSpace("1"[0]); }
    assert TargetEntryOk(LOOSE, LOOSE.snapshot.targets[0]);
    assert d.modules[0] in d.modules && "x" in d.modules[0].secretIds;
  }

  lemma LooseTables(imported: BackupRow)
    requires ValidImported("r", imported)
    ensures TablesOf(LOOSE, "r", imported).Complete()
  {
    InsertsExactly(LOOSE.snapshot.targets, TargetFits(), NeverClash());
    BackupImport("r", imported);
    var none: Rows<BackupRow> := [];
    assert none + [("r", imported)] == [("r", imported)];
    assert SecretRows(LOOSE) == [];
  }

  /** A package with a desired module that names an unknown secret is imported. */
  lemma UnknownSecretImports(imported: BackupRow)
    requires ValidImported("r", imported)
    ensures Replaced(EMPTY, LOOSE, "r", imported).Some? && !Inv(Replaced(EMPTY, LOOSE, "r", imported).value)
  {
    LooseIsValid();
    LooseTables(imported);
    hide ValidRecovery, TablesOf, Inv, SecretsIn;
    ImportKeepsExactly(EMPTY, LOOSE, "r", imported);
  }

  const EMBEDDED := SourceArtifact(CoreSource, "", "", "1", "", "hash", "core")

  /** One change registers the embedded source of the core. */
  const SEEDING := [Change([Call(RegisterSourceArtifact("core", EMBEDDED), "", false)], false, true)]

  const SEEDED := EMPTY.(artifacts := map["core" := EMBEDDED])

  lemma SeededIsReachable()
    ensures ChangedAll(EMPTY, SEEDING) == SEEDED
  {
    var register := Call(RegisterSourceArtifact("core", EMBEDDED), "", false);
    assert CompleteSource("core", EMBEDDED) by { assert !IsSpace("1"[0]) && !IsSpace("hash"[0]) && !IsSpace("core"[0]); }
    assert Applied(EMPTY, register) == Some(SEEDED);
    assert [register][..0] == [] && SEEDING[..0] == [];
    assert Attempted(EMPTY, [register]) == SEEDED;
  }

  /** A store that holds nothing but the registration of an embedded source refuses every package, also
      one that an empty store imports. */
  lemma EmbeddedSourceBlocks(imported: BackupRow)
    requires ValidImported("r", imported)
    ensures ChangedAll(EMPTY, SEEDING) == SEEDED && Replaced(EMPTY, LOOSE, "r", imported).Some?
    ensures forall r, id, row :: Replaced(SEEDED, r, id, row).None?
  {
    SeededIsReachable();
    UnknownSecretImports(imported);
    assert SEEDED.artifacts != EMPTY.artifacts by { assert "core" in SEEDED.artifacts; }
    hide TablesOf, ValidRecovery;
  }
}
