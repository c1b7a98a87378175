/** Creation of bank and loan managers by an administrator
    (app/services/admin_service.py). */
module AdminService {
  import opened Common
  import opened Records
  import opened Db

  /** The two roles an administrator may create. */
  predicate IsManagerRole(role: Role)
  {
    role == BankManagerRole || role == LoanManagerRole
  }

  /** find_by_manager_id finds a document. */
  predicate ManagerIdTaken(managers: seq<Manager>, managerId: string)
  {
    exists i :: 0 <= i < |managers| && managers[i].managerId == managerId
  }

  /** No two managers share a manager id. */
  predicate ManagerIdsUnique(managers: seq<Manager>)
  {
    forall i, j :: 0 <= i < j < |managers| ==> managers[i].managerId != managers[j].managerId
  }

  /** The guard of create_manager: the role first, then the id. */
  function CreateManagerError(managers: seq<Manager>, role: Role, managerId: string): (e: Option<Error>)
    ensures e == Some(InvalidManagerRole) <==> !IsManagerRole(role)
    ensures e == Some(ManagerIdExists) <==> IsManagerRole(role) && ManagerIdTaken(managers, managerId)
    ensures e == None <==> IsManagerRole(role) && !ManagerIdTaken(managers, managerId)
  {
    if !IsManagerRole(role) then Some(InvalidManagerRole)
    else if ManagerIdTaken(managers, managerId) then Some(ManagerIdExists)
    else None
  }

  /** The document create_manager inserts: ACTIVE and approved by the admin. */
  function NewManager(managerId: string, name: string, phone: string, role: Role, passwordHash: string, now: Time): Manager
  {
    Manager(managerId, name, phone, role, passwordHash, "ACTIVE", true, now)
  }

  /** Appending a manager with a free id keeps ids unique, and the id is
      taken from then on. */
  lemma AppendKeepsIdsUnique(managers: seq<Manager>, m: Manager)
    requires ManagerIdsUnique(managers) && !ManagerIdTaken(managers, m.managerId)
    ensures ManagerIdsUnique(managers + [m])
    ensures ManagerIdTaken(managers + [m], m.managerId)
  {
    assert (managers + [m])[|managers|] == m;
  }

  /** A second create with the same id fails, with "Manager ID already
      exists" when its role is valid. */
  lemma SecondCreateFails(managers: seq<Manager>, m: Manager, role: Role)
    ensures CreateManagerError(managers + [m], role, m.managerId).Some?
    ensures IsManagerRole(role) ==> CreateManagerError(managers + [m], role, m.managerId) == Some(ManagerIdExists)
  {
    assert (managers + [m])[|managers|] == m;
  }

  /** create_manager: on a failed guard nothing is inserted; otherwise one
      manager is appended with the requested role. */
  method CreateManager(db: Database, managerId: string, name: string, phone: string, role: Role, passwordHash: string, now: Time)
    returns (failure: Option<Error>)
    modifies db`managers
    ensures failure == CreateManagerError(old(db.managers), role, managerId)
    ensures failure.Some? ==> db.managers == old(db.managers)
    ensures failure.None? ==> db.managers == old(db.managers) + [NewManager(managerId, name, phone, role, passwordHash, now)]
    ensures ManagerIdsUnique(old(db.managers)) ==> ManagerIdsUnique(db.managers)
  {
    failure := CreateManagerError(db.managers, role, managerId);
    if failure.Some? {
      return;
    }
    var m := Manager(managerId, name, phone, role, passwordHash, "ACTIVE", true, now);
    if ManagerIdsUnique(db.managers) {
      AppendKeepsIdsUnique(db.managers, m);
    }
    db.managers := db.managers + [m];
  }
}
