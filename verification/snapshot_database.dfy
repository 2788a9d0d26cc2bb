/** The migrations as they act on a database: operation after operation, in place. */
module SnapshotDatabase {
  import opened SnapshotMigrations

  class Database {
    var revision: Revision
    var tables: set<Table>
    var scopes: set<Scope>
    var kinds: set<Kind>
    var snapshots: seq<Snapshot>
    var children: seq<Child>

    function Current(): State
      reads this
    {
      State(revision, tables, scopes, kinds, snapshots, children)
    }

    constructor ()
      ensures Current() == EMPTY && Consistent(Current())
    {
      revision, tables, scopes, kinds, snapshots, children := R0007, {}, {}, {}, [], [];
    }

    // ---- Schema operations: rejected ones change nothing ----

    method CreateTable(t: Table) returns (ok: bool)
      modifies this
      ensures ok <==> Do(old(Current()), SnapshotMigrations.CreateTable(t)).Some?
      ensures Current() == if ok then Do(old(Current()), SnapshotMigrations.CreateTable(t)).value else old(Current())
    {
      if t in tables || (t != Snapshots && Snapshots !in tables) {
        return false;
      }
      tables := tables + {t};
      if t == Snapshots {
        scopes, kinds := SCOPES_0008, KINDS_0008;
      }
      return true;
    }

    method DropTable(t: Table) returns (ok: bool)
      modifies this
      ensures ok <==> Do(old(Current()), SnapshotMigrations.DropTable(t)).Some?
      ensures Current() == if ok then Do(old(Current()), SnapshotMigrations.DropTable(t)).value else old(Current())
    {
      if t !in tables || exists u :: u in tables && References(u, t) {
        return false;
      }
      tables := tables - {t};
      if t == Snapshots {
        scopes, kinds, snapshots := {}, {}, [];
      } else {
        children := ChildrenOutside(children, t);
      }
      return true;
    }

    method ReplaceChecks(newScopes: set<Scope>, newKinds: set<Kind>) returns (ok: bool)
      modifies this
      ensures ok <==> Do(old(Current()), SnapshotMigrations.ReplaceChecks(newScopes, newKinds)).Some?
      ensures Current() ==
        (if ok then Do(old(Current()), SnapshotMigrations.ReplaceChecks(newScopes, newKinds)).value
         else old(Current()))
    {
      if Snapshots !in tables || exists s :: s in snapshots && !Allowed(s, newScopes, newKinds) {
        return false;
      }
      scopes, kinds := newScopes, newKinds;
      return true;
    }

    // ---- Migration scripts: the first rejected operation ends them ----

    method Upgrade0008() returns (ok: bool)
      modifies this
      ensures ok <==> Up0008(old(Current())).Some?
      ensures ok ==> Current() == Up0008(old(Current())).value
    {
      ok := CreateTable(Snapshots);
      if ok { ok := CreateTable(SnapshotRows); }
      if ok { ok := CreateTable(Disappearances); }
      if ok { ok := CreateTable(Pointers); }
    }

    method Downgrade0008() returns (ok: bool)
      modifies this
      ensures ok <==> Down0008(old(Current())).Some?
      ensures ok ==> Current() == Down0008(old(Current())).value
    {
      ok := DropTable(Pointers);
      if ok { ok := DropTable(Disappearances); }
      if ok { ok := DropTable(SnapshotRows); }
      if ok { ok := DropTable(Snapshots); }
    }

    method Upgrade0009() returns (ok: bool)
      modifies this
      ensures ok <==> Up0009(old(Current())).Some?
      ensures ok ==> Current() == Up0009(old(Current())).value
    {
      ok := ReplaceChecks(SCOPES_0009, KINDS_0009);
    }

    method Downgrade0009() returns (ok: bool)
      modifies this
      ensures ok <==> Down0009(old(Current())).Some?
      ensures Current() == if ok then Down0009(old(Current())).value else old(Current())
    {
      if exists s :: s in snapshots && IsLive(s) {
        return false;
      }
      ok := ReplaceChecks(SCOPES_0008, KINDS_0008);
    }

    method Upgrade0010() returns (ok: bool)
      modifies this
      ensures ok <==> Up0010(old(Current())).Some?
      ensures ok ==> Current() == Up0010(old(Current())).value
    {
      ok := ReplaceChecks(SCOPES_0010, KINDS_0010);
      if ok { ok := CreateTable(ApiArtifacts); }
      if ok { ok := CreateTable(ApiRows); }
      if ok { ok := CreateTable(ApiQuarantines); }
      if ok { ok := CreateTable(ApiDisappearances); }
    }

    method Downgrade0010() returns (ok: bool)
      modifies this
      ensures ok <==> Down0010(old(Current())).Some?
      ensures ok ==> Current() == Down0010(old(Current())).value
      ensures (exists s :: s in old(snapshots) && IsApi(s)) ==> Current() == old(Current())
    {
      if exists s :: s in snapshots && IsApi(s) {
        return false;
      }
      ok := DropTable(ApiDisappearances);
      if ok { ok := DropTable(ApiQuarantines); }
      if ok { ok := DropTable(ApiRows); }
      if ok { ok := DropTable(ApiArtifacts); }
      if ok { ok := ReplaceChecks(SCOPES_0009, KINDS_0009); }
    }

    // ---- One revision up or down ----

    /** Works on every consistent database. */
    method Upgrade() returns (ok: bool)
      requires Consistent(Current())
      modifies this
      ensures ok && Current() == After(old(Current()), SnapshotMigrations.Upgrade) && Consistent(Current())
    {
      UpgradeWorks(Current());
      UpgradeKeeps(Current());
      match revision {
        case R0007 => ok := Upgrade0008();
        case R0008 => ok := Upgrade0009();
        case R0009 => ok := Upgrade0010();
        case R0010 => return true;
      }
      revision := Next(revision);
    }

    /** The downgrade script of the current revision. */
    method DowngradeScript() returns (ok: bool)
      modifies this
      ensures ok <==> DowngradeOnce(old(Current())).Some?
      ensures ok ==> Current().(revision := Previous(old(revision))) == DowngradeOnce(old(Current())).value
      ensures Blocked(old(Current())) ==> Current() == old(Current())
    {
      match revision {
        case R0007 => ok := true;
        case R0008 => ok := Downgrade0008();
        case R0009 => ok := Downgrade0009();
        case R0010 => ok := Downgrade0010();
      }
    }

    /** Refused, with nothing changed, exactly when rows of this revision exist. */
    method Downgrade() returns (ok: bool)
      requires Consistent(Current())
      modifies this
      ensures ok <==> !Blocked(old(Current()))
      ensures Current() == After(old(Current()), SnapshotMigrations.Downgrade) && Consistent(Current())
      ensures !ok ==> Current() == old(Current())
    {
      DowngradeWorks(Current());
      StepKeeps(Current(), SnapshotMigrations.Downgrade);
      var from := revision;
      ok := DowngradeScript();
      if ok {
        revision := Previous(from);
      }
    }

    method Insert(s: Snapshot) returns (ok: bool)
      requires Consistent(Current())
      modifies this
      ensures ok <==> Insertable(old(Current()), s)
      ensures Current() == After(old(Current()), SnapshotMigrations.Insert(s)) && Consistent(Current())
    {
      StepKeeps(Current(), SnapshotMigrations.Insert(s));
      ok := Insertable(Current(), s);
      if ok {
        snapshots := snapshots + [s];
      }
    }
  }
}
