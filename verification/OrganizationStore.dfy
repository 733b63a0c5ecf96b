/** OrganizationStore.Create as the imperative program it is, for one caller, with database faults as inputs. */
module OrganizationStore {
  import opened Prelude
  import opened Schema
  import opened Idempotency
  import opened OrganizationDomain
  import opened CreateProtocol
  import opened Serializability
  import opened Identifiers

  /** The call gets as far as statement `failAt`: two for a stored key, five for a new one. */
  predicate Strikes(view: Tables, c: Call, failAt: nat) {
    || failAt == 1
    || if c.Key() in view.keys then failAt == 2 else !Blank(c.name) && 2 <= failAt <= 5
  }

  class Store {
    var tables: Tables
    const generator: Generator

    constructor (generator: Generator)
      ensures tables == NO_ROWS && this.generator == generator
    {
      tables := NO_ROWS;
      this.generator := generator;
    }

    ghost predicate Valid()
      reads this, generator
    {
      IdsOf(tables) <= generator.issued
    }

    /** idempotency.Store.Begin after the INSERT found the key taken: SELECT ... FOR UPDATE, which may fail. */
    method Load(view: Tables, c: Call, fails: bool) returns (reply: Reply)
      ensures reply == if fails then Failure(DatabaseFailure)
                       else if c.Key() !in view.keys then Failure(MissingKey)
                       else OnStoredRow(view.keys[c.Key()], c.hash)
    {
      if fails {
        return Failure(DatabaseFailure);
      }
      if c.Key() !in view.keys {
        return Failure(MissingKey);
      }
      var row := view.keys[c.Key()];
      var same := EqualBytes(row.hash, c.hash);
      if !same {
        return Failure(KeyConflict);
      }
      if row.status != Completed || row.responseStatus.None? {
        return Failure(InProgress);
      }
      reply := if row.responseBody.Some? then Success(row.responseBody.value, true) else Failure(Undecodable);
    }

    /** The organization, its first membership and the audit event; `failAt` names the statement that fails. */
    method InsertRows(c: Call, now: Time, reserved: Writes, failAt: nat)
      returns (result: Option<OrganizationResult>, w: Writes, ghost ids: seq<Id>)
      requires Valid() && c.Key() !in tables.keys && !Blank(c.name) && reserved == FreshRows(c, now, [])
      modifies generator
      ensures Valid() && old(generator.issued) <= generator.issued
      ensures forall i :: i in ids ==> i !in old(generator.issued) && i in generator.issued
      ensures result.Some? ==>
                && |ids| == 3 && ids[0] != ""
                && w == FreshRows(c, now, ids) && result.value == ResultFor(c, now, ids[0])
      ensures result.None? <==> 2 <= failAt <= 4
    {
      var organizationId := generator.New();
      ids := [organizationId];
      var o := OrganizationRow(organizationId, c.name, now);
      var inserted := InsertOrganization(tables.Merge(reserved), reserved, o);
      if failAt == 2 || inserted.None? {
        return None, reserved, ids;
      }
      w := inserted.value;
      assert w == FreshRows(c, now, ids) && tables.Merge(w).memberships == tables.memberships;
      var membershipId := generator.New();
      ids := ids + [membershipId];
      w := InsertMembership(tables.Merge(w), w, membershipId, AdministratorRow(c.principal, o.id, now));
      if failAt == 3 {
        return None, w, ids;
      }
      assert w == FreshRows(c, now, ids) && tables.Merge(w).audit == tables.audit;
      var eventId := generator.New();
      ids := ids + [eventId];
      var appended := InsertAudit(tables.Merge(w), w, eventId, CreatedEvent(c.principal, o, now));
      if failAt == 4 || appended.None? {
        return None, w, ids;
      }
      w := appended.value;
      result := Some(ResultOf(o));
    }

    /** The statements of a fresh creation after the key was reserved. */
    method Insert(c: Call, now: Time, reserved: Writes, failAt: nat)
      returns (reply: Reply, w: Writes, ghost ids: seq<Id>)
      requires Valid() && c.Key() !in tables.keys && reserved == FreshRows(c, now, [])
      modifies generator
      ensures Valid() && old(generator.issued) <= generator.issued
      ensures forall i :: i in ids ==> i !in old(generator.issued) && i in generator.issued
      ensures reply.Success? ==>
                && !Blank(c.name) && |ids| == 3 && ids[0] != ""
                && w == CreatedRows(c, now, ids) && reply == Success(ResultFor(c, now, ids[0]), false)
      ensures Blank(c.name) ==> reply == Failure(InvalidOrganization)
      ensures !Blank(c.name) ==> if 2 <= failAt <= 5 then reply == Failure(DatabaseFailure) else reply.Success?
    {
      if Blank(c.name) {
        var unused := generator.New();
        return Failure(InvalidOrganization), reserved, [unused];
      }
      var result;
      result, w, ids := InsertRows(c, now, reserved, failAt);
      if result.None? {
        return Failure(DatabaseFailure), w, ids;
      }
      assert tables.Merge(w).keys[c.Key()] == ProcessingRow(c.hash, now);
      var (completed, affected) := CompleteKey(tables.Merge(w), w, c.Key(), STATUS_CREATED, result.value, now);
      if failAt == 5 {
        return Failure(DatabaseFailure), w, ids;
      }
      w := completed;
      reply := if affected == 1 then Success(result.value, false) else Failure(InProgress);
    }

    /**
     One transaction. If no statement fails it is the sequential creation; a failed statement or a
     refused commit leaves the tables untouched; a lost reply hides an effect that did take place.
     */
    method Create(c: Call, now: Time, failAt: nat, ending: Ending) returns (reply: Reply, ghost ids: seq<Id>)
      requires Valid()
      modifies this`tables, generator
      ensures Valid()
      ensures var (next, earned) := SerialCreate(old(tables), c, now, ids);
              if Strikes(old(tables), c, failAt) then tables == old(tables) && reply == Failure(DatabaseFailure)
              else
                match ending
                case Delivered => tables == next && reply == earned
                case Lost => tables == next && reply == if earned.Success? then Failure(ReplyLost) else earned
                case Refused =>
                  tables == old(tables) && reply == if earned.Success? then Failure(DatabaseFailure) else earned
      ensures reply.Success? && !reply.replay ==>
                |ids| == 3 && StoredExactly(tables, c, now, ids) && IsResult(reply.result, ids[0], c.name)
    {
      ids := [];
      var (w, affected) := InsertKey(tables, NO_WRITES, c.Key(), ProcessingRow(c.hash, now));
      if failAt == 1 {
        return Failure(DatabaseFailure), ids;
      }
      if affected == 1 {
        reply, w, ids := Insert(c, now, w, failAt);
      } else {
        reply := Load(tables, c, failAt == 2);
      }
      if reply.Success? {
        if ending == Refused {
          return Failure(DatabaseFailure), ids;
        }
        tables := tables.Merge(w);
        if !reply.replay { CreatedAsAsked(tables, c, now, ids); }
        if ending == Lost {
          return Failure(ReplyLost), ids;
        }
      }
    }
  }
}
