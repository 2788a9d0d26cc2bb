/** The three migrations of the source-snapshot tables, run forwards and backwards between
    inserts and deletes. */
module SnapshotMigrations {
  import opened Options

  datatype Revision = R0007 | R0008 | R0009 | R0010

  datatype Table =
    | Snapshots | SnapshotRows | Disappearances | Pointers
    | ApiArtifacts | ApiRows | ApiQuarantines | ApiDisappearances

  /** `fixture_scope`, `observation_kind` and `lifecycle_state`: the named values and any other text. */
  datatype Scope = SyntheticFixture | LiveQueryScope | ApiScope | OtherScope(text: string)

  datatype Kind = SyntheticQuery | SyntheticExport | LiveQuery | BulkExportFamily | OtherKind(text: string)

  datatype Lifecycle = Candidate | Validated | Rejected | Accepted | OtherLifecycle(text: string)

  /** The constrained columns of a snapshot row. */
  datatype Snapshot = Snapshot(
    id: string, family: string, manifest: string, payload: string,
    scope: Scope, kind: Kind, lifecycle: Lifecycle, rowCount: int, storedRowCount: int)

  /** The foreign keys of a row of any other table: the snapshot it belongs to (or, for a pointer,
      the active snapshot), and the prior snapshot it names, if any. */
  datatype Child = Child(table: Table, snapshot: string, prior: Option<string>)

  /** A database as its migrations see it.  `scopes` and `kinds` are the value lists of the two
      CHECKs that migrations replace; they are empty while there is no snapshot table. */
  datatype State = State(
    revision: Revision, tables: set<Table>, scopes: set<Scope>, kinds: set<Kind>,
    snapshots: seq<Snapshot>, children: seq<Child>)

  const EMPTY := State(R0007, {}, {}, {}, [], [])

  // ---- Schema operations ----

  const SCOPES_0008 := {SyntheticFixture}
  const KINDS_0008 := {SyntheticQuery, SyntheticExport}
  const SCOPES_0009 := {SyntheticFixture, LiveQueryScope}
  const KINDS_0009 := {SyntheticQuery, SyntheticExport, LiveQuery}
  const SCOPES_0010 := {SyntheticFixture, LiveQueryScope, ApiScope}
  const KINDS_0010 := {SyntheticQuery, SyntheticExport, LiveQuery, BulkExportFamily}

  datatype Op =
    | CreateTable(table: Table)
    | DropTable(table: Table)
    | ReplaceChecks(scopes: set<Scope>, kinds: set<Kind>)

  predicate FixedChecks(s: Snapshot) {
    !s.lifecycle.OtherLifecycle? && s.rowCount >= 0 && s.storedRowCount >= 0
  }

  predicate Allowed(s: Snapshot, scopes: set<Scope>, kinds: set<Kind>) {
    s.scope in scopes && s.kind in kinds
  }

  /** The table a table's foreign keys point to. */
  predicate References(t: Table, target: Table) { t != Snapshots && target == Snapshots }

  function ChildrenOutside(children: seq<Child>, t: Table): seq<Child> {
    if children == [] then []
    else
      var last := children[|children| - 1];
      ChildrenOutside(children[..|children| - 1], t) + if last.table == t then [] else [last]
  }

  /** One operation, or `None` when the database rejects it: a table that exists already or whose
      target does not, dropping a table that is missing or still referenced, a CHECK that a stored
      row violates. */
  function Do(st: State, op: Op): Option<State> {
    match op
    case CreateTable(t) =>
      if t in st.tables || (t != Snapshots && Snapshots !in st.tables) then None
      else if t == Snapshots then
        Some(st.(tables := st.tables + {t}, scopes := SCOPES_0008, kinds := KINDS_0008))
      else Some(st.(tables := st.tables + {t}))
    case DropTable(t) =>
      if t !in st.tables || exists u :: u in st.tables && References(u, t) then None
      else if t == Snapshots then Some(st.(tables := st.tables - {t}, scopes := {}, kinds := {}, snapshots := []))
      else Some(st.(tables := st.tables - {t}, children := ChildrenOutside(st.children, t)))
    case ReplaceChecks(scopes, kinds) =>
      if Snapshots !in st.tables || exists s :: s in st.snapshots && !Allowed(s, scopes, kinds) then None
      else Some(st.(scopes := scopes, kinds := kinds))
  }

  /** `op` after a script that may have stopped already. */
  function Then(r: Option<State>, op: Op): Option<State> {
    if r.Some? then Do(r.value, op) else None
  }

  // ---- The migration scripts ----

  function Up0008(st: State): Option<State> {
    var a := Then(Some(st), CreateTable(Snapshots));
    var b := Then(a, CreateTable(SnapshotRows));
    var c := Then(b, CreateTable(Disappearances));
    Then(c, CreateTable(Pointers))
  }

  function Down0008(st: State): Option<State> {
    var a := Then(Some(st), DropTable(Pointers));
    var b := Then(a, DropTable(Disappearances));
    var c := Then(b, DropTable(SnapshotRows));
    Then(c, DropTable(Snapshots))
  }

  function Up0009(st: State): Option<State> { Do(st, ReplaceChecks(SCOPES_0009, KINDS_0009)) }

  /** What the row-count guards of the two guarded downgrades count. */
  predicate IsLive(s: Snapshot) { s.scope.LiveQueryScope? || s.kind.LiveQuery? }

  predicate IsApi(s: Snapshot) { s.scope.ApiScope? || s.kind.BulkExportFamily? }

  function Down0009(st: State): Option<State> {
    if exists s :: s in st.snapshots && IsLive(s) then None
    else Do(st, ReplaceChecks(SCOPES_0008, KINDS_0008))
  }

  function Up0010(st: State): Option<State> {
    var a := Then(Some(st), ReplaceChecks(SCOPES_0010, KINDS_0010));
    var b := Then(a, CreateTable(ApiArtifacts));
    var c := Then(b, CreateTable(ApiRows));
    var d := Then(c, CreateTable(ApiQuarantines));
    Then(d, CreateTable(ApiDisappearances))
  }

  function DropApi(st: State): Option<State> {
    var a := Then(Some(st), DropTable(ApiDisappearances));
    var b := Then(a, DropTable(ApiQuarantines));
    var c := Then(b, DropTable(ApiRows));
    Then(c, DropTable(ApiArtifacts))
  }

  function Down0010(st: State): Option<State> {
    if exists s :: s in st.snapshots && IsApi(s) then None
    else Then(DropApi(st), ReplaceChecks(SCOPES_0009, KINDS_0009))
  }

  // ---- Everything that happens to a database ----

  datatype Step = Upgrade | Downgrade | Insert(row: Snapshot) | InsertChild(child: Child) | Delete(id: string)

  function At(st: Option<State>, r: Revision): Option<State> {
    if st.Some? then Some(st.value.(revision := r)) else None
  }

  function UpgradeOnce(st: State): Option<State> {
    match st.revision
    case R0007 => At(Up0008(st), R0008)
    case R0008 => At(Up0009(st), R0009)
    case R0009 => At(Up0010(st), R0010)
    case R0010 => Some(st)
  }

  function DowngradeOnce(st: State): Option<State> {
    match st.revision
    case R0007 => Some(st)
    case R0008 => At(Down0008(st), R0007)
    case R0009 => At(Down0009(st), R0008)
    case R0010 => At(Down0010(st), R0009)
  }

  predicate Stored(snapshots: seq<Snapshot>, id: string) { exists s :: s in snapshots && s.id == id }

  /** The primary key and the unique identity of a row collide. */
  predicate Collides(s: Snapshot, t: Snapshot) {
    s.id == t.id || (s.family == t.family && s.manifest == t.manifest && s.payload == t.payload)
  }

  predicate Insertable(st: State, s: Snapshot) {
    && Snapshots in st.tables && Allowed(s, st.scopes, st.kinds) && FixedChecks(s)
    && forall t | t in st.snapshots :: !Collides(s, t)
  }

  predicate Grounded(st: State, c: Child) {
    && c.table in st.tables && c.table != Snapshots
    && Stored(st.snapshots, c.snapshot) && (c.prior.Some? ==> Stored(st.snapshots, c.prior.value))
  }

  /** ON DELETE CASCADE covers a row's own snapshot, except that of a pointer. */
  predicate Cascades(c: Child, id: string) { c.table != Pointers && c.snapshot == id }

  predicate Refers(c: Child, id: string) { c.snapshot == id || c.prior == Some(id) }

  function Remaining(children: seq<Child>, id: string): seq<Child> {
    if children == [] then []
    else
      var last := children[|children| - 1];
      Remaining(children[..|children| - 1], id) + if Cascades(last, id) then [] else [last]
  }

  function Without(snapshots: seq<Snapshot>, id: string): seq<Snapshot> {
    if snapshots == [] then []
    else
      var last := snapshots[|snapshots| - 1];
      Without(snapshots[..|snapshots| - 1], id) + if last.id == id then [] else [last]
  }

  function DeleteSnapshot(st: State, id: string): Option<State> {
    var children := Remaining(st.children, id);
    if exists c :: c in children && Refers(c, id) then None
    else Some(st.(snapshots := Without(st.snapshots, id), children := children))
  }

  /** One step, or `None` when it is refused. */
  function Apply(st: State, step: Step): Option<State> {
    match step
    case Upgrade => UpgradeOnce(st)
    case Downgrade => DowngradeOnce(st)
    case Insert(s) => if Insertable(st, s) then Some(st.(snapshots := st.snapshots + [s])) else None
    case InsertChild(c) => if Grounded(st, c) then Some(st.(children := st.children + [c])) else None
    case Delete(id) => DeleteSnapshot(st, id)
  }

  /** A refused step leaves the database alone. */
  function After(st: State, step: Step): State {
    var next := Apply(st, step);
    if next.Some? then next.value else st
  }

  function Run(st: State, steps: seq<Step>): State {
    if steps == [] then st else After(Run(st, steps[..|steps| - 1]), steps[|steps| - 1])
  }

  // ---- What every database satisfies ----

  function TablesAt(r: Revision): set<Table> {
    match r
    case R0007 => {}
    case R0010 =>
      {Snapshots, SnapshotRows, Disappearances, Pointers, ApiArtifacts, ApiRows, ApiQuarantines, ApiDisappearances}
    case _ => {Snapshots, SnapshotRows, Disappearances, Pointers}
  }

  function ScopesAt(r: Revision): set<Scope> {
    match r
    case R0007 => {}
    case R0008 => SCOPES_0008
    case R0009 => SCOPES_0009
    case R0010 => SCOPES_0010
  }

  function KindsAt(r: Revision): set<Kind> {
    match r
    case R0007 => {}
    case R0008 => KINDS_0008
    case R0009 => KINDS_0009
    case R0010 => KINDS_0010
  }

  /** The schema is a function of the revision. */
  predicate SchemaOf(st: State, r: Revision) {
    st.revision == r && st.tables == TablesAt(r) && st.scopes == ScopesAt(r) && st.kinds == KindsAt(r)
  }

  predicate RowsPass(st: State) {
    forall s | s in st.snapshots :: Allowed(s, st.scopes, st.kinds) && FixedChecks(s)
  }

  predicate KeysDistinct(snapshots: seq<Snapshot>) {
    forall i, j | 0 <= i < j < |snapshots| :: !Collides(snapshots[i], snapshots[j])
  }

  predicate Consistent(st: State) {
    && SchemaOf(st, st.revision) && RowsPass(st) && KeysDistinct(st.snapshots)
    && forall c | c in st.children :: Grounded(st, c)
  }

  // ---- The scripts succeed ----

  lemma Up0008Creates(st: State)
    requires st.tables == {}
    ensures Up0008(st) == Some(st.(tables := TablesAt(R0008), scopes := SCOPES_0008, kinds := KINDS_0008))
  {
    assert Up0008(st).value.tables == TablesAt(R0008);
  }

  lemma {:induction false} OutsideElements(children: seq<Child>, t: Table)
    ensures forall c :: c in ChildrenOutside(children, t) <==> c in children && c.table != t
  {
    if children != [] {
      var front, last := children[..|children| - 1], children[|children| - 1];
      assert children == front + [last];
      OutsideElements(front, t);
    }
  }

  lemma {:induction false} OutsideKeeps(children: seq<Child>, t: Table)
    requires forall c | c in children :: c.table != t
    ensures ChildrenOutside(children, t) == children
  {
    if children != [] {
      var front, last := children[..|children| - 1], children[|children| - 1];
      assert children == front + [last];
      OutsideKeeps(front, t);
    }
  }

  /** The state after dropping a table other than the snapshot table itself. */
  function Dropped(st: State, t: Table): State {
    st.(tables := st.tables - {t}, children := ChildrenOutside(st.children, t))
  }

  lemma DropWorks(st: State, t: Table)
    requires t in st.tables && t != Snapshots
    ensures Do(st, DropTable(t)) == Some(Dropped(st, t))
  {
  }

  lemma Down0008Drops(st: State)
    requires st.tables == TablesAt(R0008)
    requires forall c | c in st.children :: c.table in st.tables && c.table != Snapshots
    ensures Down0008(st) == Some(EMPTY.(revision := st.revision))
  {
    DropWorks(st, Pointers);
    var a := Dropped(st, Pointers);
    DropWorks(a, Disappearances);
    var b := Dropped(a, Disappearances);
    DropWorks(b, SnapshotRows);
    var c := Dropped(b, SnapshotRows);
    assert c.tables == {Snapshots};
    OutsideElements(st.children, Pointers);
    OutsideElements(a.children, Disappearances);
    OutsideElements(b.children, SnapshotRows);
    SomeElement(c.children);
    LastDrop(c);
  }

  lemma SomeElement<T>(xs: seq<T>)
    ensures xs != [] ==> exists x :: x in xs
  {
    if xs != [] {
      assert xs[0] in xs;
    }
  }

  lemma LastDrop(st: State)
    requires st.tables == {Snapshots} && st.children == []
    ensures Do(st, DropTable(Snapshots)) == Some(EMPTY.(revision := st.revision))
  {
    assert st.tables - {Snapshots} == {};
  }

  lemma Up0010Creates(st: State)
    requires st.tables == TablesAt(R0009) && RowsPass(st) && st.scopes == SCOPES_0009 && st.kinds == KINDS_0009
    ensures Up0010(st) == Some(st.(tables := TablesAt(R0010), scopes := SCOPES_0010, kinds := KINDS_0010))
  {
    assert Up0010(st).value.tables == TablesAt(R0010);
  }

  /** The rows outside the four tables of revision 0010. */
  function OutsideApi(children: seq<Child>): seq<Child> {
    ChildrenOutside(
      ChildrenOutside(ChildrenOutside(ChildrenOutside(children, ApiDisappearances), ApiQuarantines), ApiRows),
      ApiArtifacts)
  }

  lemma DropApiDrops(st: State)
    requires st.tables == TablesAt(R0010)
    ensures DropApi(st) == Some(st.(tables := TablesAt(R0009), children := OutsideApi(st.children)))
  {
    DropWorks(st, ApiDisappearances);
    var a := Dropped(st, ApiDisappearances);
    DropWorks(a, ApiQuarantines);
    var b := Dropped(a, ApiQuarantines);
    DropWorks(b, ApiRows);
    var c := Dropped(b, ApiRows);
    DropWorks(c, ApiArtifacts);
    assert Dropped(c, ApiArtifacts).tables == TablesAt(R0009);
  }

  predicate InApi(c: Child) { c.table in {ApiArtifacts, ApiRows, ApiQuarantines, ApiDisappearances} }

  lemma OutsideApiElements(children: seq<Child>)
    ensures forall c :: c in OutsideApi(children) <==> c in children && !InApi(c)
  {
    var a := ChildrenOutside(children, ApiDisappearances);
    var b := ChildrenOutside(a, ApiQuarantines);
    OutsideElements(children, ApiDisappearances);
    OutsideElements(a, ApiQuarantines);
    OutsideElements(b, ApiRows);
    OutsideElements(ChildrenOutside(b, ApiRows), ApiArtifacts);
  }

  // ---- Every step keeps the database consistent ----

  function Next(r: Revision): Revision {
    match r
    case R0007 => R0008
    case R0008 => R0009
    case _ => R0010
  }

  function Previous(r: Revision): Revision {
    match r
    case R0010 => R0009
    case R0009 => R0008
    case _ => R0007
  }

  /** The same rows under the schema of another revision. */
  function Moved(st: State, r: Revision): State {
    st.(revision := r, tables := TablesAt(r), scopes := ScopesAt(r), kinds := KindsAt(r))
  }

  /** The rows that survive a downgrade. */
  function Surviving(st: State): State {
    match st.revision
    case R0008 => st.(snapshots := [], children := [])
    case R0010 => st.(children := OutsideApi(st.children))
    case _ => st
  }

  /** An upgrade always works and changes nothing but the schema. */
  lemma UpgradeWorks(st: State)
    requires Consistent(st)
    ensures UpgradeOnce(st) == Some(Moved(st, Next(st.revision)))
  {
    match st.revision
    case R0007 => Up0008Creates(st);
    case R0008 =>
    case R0009 => Up0010Creates(st);
    case R0010 =>
  }

  /** Rows of the revision being left. */
  predicate Blocked(st: State) {
    || (st.revision == R0009 && exists s :: s in st.snapshots && IsLive(s))
    || (st.revision == R0010 && exists s :: s in st.snapshots && IsApi(s))
  }

  /** A downgrade is refused exactly by its guard, and loses exactly the rows of the tables it drops. */
  lemma DowngradeWorks(st: State)
    requires Consistent(st)
    ensures DowngradeOnce(st).None? <==> Blocked(st)
    ensures !Blocked(st) ==> DowngradeOnce(st) == Some(Moved(Surviving(st), Previous(st.revision)))
  {
    match st.revision
    case R0007 =>
    case R0008 =>
      assert forall c | c in st.children :: Grounded(st, c);
      Down0008Drops(st);
    case R0009 =>
    case R0010 => DropApiDrops(st);
  }

  lemma UpgradeKeeps(st: State)
    requires Consistent(st)
    ensures Consistent(Moved(st, Next(st.revision)))
  {
    var next := Moved(st, Next(st.revision));
    forall c | c in next.children ensures Grounded(next, c) {
      assert Grounded(st, c);
    }
  }

  lemma DowngradeKeeps(st: State)
    requires Consistent(st) && DowngradeOnce(st).Some?
    ensures Consistent(DowngradeOnce(st).value)
  {
    DowngradeWorks(st);
    var next := DowngradeOnce(st).value;
    OutsideApiElements(st.children);
    forall c | c in next.children ensures Grounded(next, c) {
      assert Grounded(st, c);
    }
  }

  lemma InsertKeeps(st: State, s: Snapshot)
    requires Consistent(st) && Insertable(st, s)
    ensures Consistent(st.(snapshots := st.snapshots + [s]))
  {
    var next := st.(snapshots := st.snapshots + [s]);
    assert forall i | 0 <= i < |st.snapshots| :: st.snapshots[i] in st.snapshots;
    assert forall t | t in st.snapshots :: Collides(t, s) <==> Collides(s, t);
    forall c | c in next.children ensures Grounded(next, c) {
      assert Grounded(st, c);
      assert forall t | t in st.snapshots :: t in next.snapshots;
    }
  }

  lemma {:induction false} WithoutElements(snapshots: seq<Snapshot>, id: string)
    ensures forall s :: s in Without(snapshots, id) <==> s in snapshots && s.id != id
    ensures KeysDistinct(snapshots) ==> KeysDistinct(Without(snapshots, id))
  {
    if snapshots != [] {
      var front, last := snapshots[..|snapshots| - 1], snapshots[|snapshots| - 1];
      assert snapshots == front + [last];
      WithoutElements(front, id);
      if KeysDistinct(snapshots) {
        forall s | s in front ensures !Collides(s, last) {
          var i :| 0 <= i < |front| && front[i] == s;
          assert snapshots[i] == s;
        }
      }
    }
  }

  lemma {:induction false} RemainingElements(children: seq<Child>, id: string)
    ensures forall c :: c in Remaining(children, id) <==> c in children && !Cascades(c, id)
  {
    if children != [] {
      var front, last := children[..|children| - 1], children[|children| - 1];
      assert children == front + [last];
      RemainingElements(front, id);
    }
  }

  lemma DeleteKeeps(st: State, id: string)
    requires Consistent(st) && DeleteSnapshot(st, id).Some?
    ensures Consistent(DeleteSnapshot(st, id).value)
  {
    var next := DeleteSnapshot(st, id).value;
    WithoutElements(st.snapshots, id);
    RemainingElements(st.children, id);
    forall c | c in next.children ensures Grounded(next, c) {
      assert Grounded(st, c) && !Refers(c, id);
      var s :| s in st.snapshots && s.id == c.snapshot;
      assert s in next.snapshots;
      if c.prior.Some? {
        var t :| t in st.snapshots && t.id == c.prior.value;
        assert t in next.snapshots;
      }
    }
  }

  lemma StepKeeps(st: State, step: Step)
    requires Consistent(st)
    ensures Consistent(After(st, step))
  {
    match step
    case Upgrade => UpgradeKeeps(st); UpgradeWorks(st);
    case Downgrade =>
      DowngradeWorks(st);
      if !Blocked(st) { DowngradeKeeps(st); }
    case Insert(s) => if Insertable(st, s) { InsertKeeps(st, s); }
    case InsertChild(c) =>
    case Delete(id) => if DeleteSnapshot(st, id).Some? { DeleteKeeps(st, id); }
  }

  /** After any run of upgrades, downgrades, inserts and deletes from the empty database, refused
      ones included: the schema is that of the revision reached, every stored snapshot passes the
      CHECKs in force, keys are distinct, and every foreign key points to a stored snapshot. */
  lemma {:induction false} RunConsistent(steps: seq<Step>)
    ensures Consistent(Run(EMPTY, steps))
  {
    if steps != [] {
      RunConsistent(steps[..|steps| - 1]);
      StepKeeps(Run(EMPTY, steps[..|steps| - 1]), steps[|steps| - 1]);
    }
  }

  /** In every reachable database an upgrade works, and a downgrade is refused exactly when rows
      of the revision being left exist: no script stops at a drop, a create or a CHECK. */
  lemma OnlyGuardsRefuse(steps: seq<Step>)
    ensures var st := Run(EMPTY, steps);
      Apply(st, Upgrade).Some? && (Apply(st, Downgrade).None? <==> Blocked(st))
  {
    RunConsistent(steps);
    UpgradeWorks(Run(EMPTY, steps));
    DowngradeWorks(Run(EMPTY, steps));
  }

  /** A fresh upgrade leaves no row that would block its downgrade. */
  lemma FreshlyUpgraded(st: State)
    requires Consistent(st) && st.revision != R0010
    ensures !Blocked(Moved(st, Next(st.revision)))
  {
    assert forall s | s in st.snapshots :: Allowed(s, st.scopes, st.kinds);
  }

  lemma OutsideApiKeeps(children: seq<Child>)
    requires forall c | c in children :: !InApi(c)
    ensures OutsideApi(children) == children
  {
    OutsideKeeps(children, ApiDisappearances);
    OutsideKeeps(children, ApiQuarantines);
    OutsideKeeps(children, ApiRows);
    OutsideKeeps(children, ApiArtifacts);
  }

  lemma SurvivesFirstUpgrade(st: State)
    requires Consistent(st) && st.revision == R0007
    ensures Surviving(Moved(st, R0008)).snapshots == st.snapshots
    ensures Surviving(Moved(st, R0008)).children == st.children
  {
    SomeElement(st.children);
    SomeElement(st.snapshots);
    assert forall s | s in st.snapshots :: Allowed(s, st.scopes, st.kinds);
  }

  lemma SurvivesLastUpgrade(st: State)
    requires Consistent(st) && st.revision == R0009
    ensures Surviving(Moved(st, R0010)).snapshots == st.snapshots
    ensures Surviving(Moved(st, R0010)).children == st.children
  {
    assert forall c | c in st.children :: Grounded(st, c);
    OutsideApiKeeps(st.children);
  }

  lemma SurvivesFreshUpgrade(st: State)
    requires Consistent(st) && st.revision != R0010
    ensures Surviving(Moved(st, Next(st.revision))).snapshots == st.snapshots
    ensures Surviving(Moved(st, Next(st.revision))).children == st.children
  {
    match st.revision
    case R0007 => SurvivesFirstUpgrade(st);
    case R0008 =>
    case R0009 => SurvivesLastUpgrade(st);
  }

  /** Downgrading takes an upgrade back, rows and all. */
  lemma UpgradeThenDowngrade(st: State)
    requires Consistent(st) && st.revision != R0010
    ensures Apply(After(st, Upgrade), Downgrade) == Some(st)
  {
    UpgradeWorks(st);
    UpgradeKeeps(st);
    FreshlyUpgraded(st);
    SurvivesFreshUpgrade(st);
    DowngradeWorks(Moved(st, Next(st.revision)));
  }

  /** Upgrading again after a downgrade from 0009 or 0010 that was not refused: every snapshot is
      back, and all that is lost is what was in the four tables of revision 0010. */
  lemma DowngradeThenUpgrade(st: State)
    requires Consistent(st) && st.revision in {R0009, R0010} && !Blocked(st)
    ensures After(After(st, Downgrade), Upgrade) == Surviving(st)
  {
    DowngradeWorks(st);
    DowngradeKeeps(st);
    UpgradeWorks(Moved(Surviving(st), Previous(st.revision)));
  }
}
