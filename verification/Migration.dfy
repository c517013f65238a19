/** Which legs are being moved between media workers, and the callers waiting for a move to end. */
module MigrationSpec {
  import opened JsText

  // Waiting callers are promise resolvers in the source and numbers here.
  datatype Board = Board(migrating: set<Text>, waiters: map<Text, seq<nat>>)

  const QUIET: Board := Board({}, map[])

  function WaitersOf(b: Board, leg: Text): seq<nat> { if leg in b.waiters then b.waiters[leg] else [] }

  function Begin(b: Board, leg: Text): Board { b.(migrating := b.migrating + {leg}) }

  // Ending a move wakes the leg's waiters; ending one that is not marked does nothing.
  function End(b: Board, leg: Text): Board {
    if leg in b.migrating then Board(b.migrating - {leg}, b.waiters - {leg}) else b
  }

  function Woken(b: Board, leg: Text): seq<nat> {
    if leg in b.migrating then WaitersOf(b, leg) else []
  }

  // One turn of the waiting loop: a caller that finds the leg moving registers.
  function Register(b: Board, leg: Text, caller: nat): Board {
    if leg in b.migrating then b.(waiters := b.waiters[leg := WaitersOf(b, leg) + [caller]]) else b
  }

  ghost predicate Registered(b: Board, leg: Text, caller: nat) { caller in WaitersOf(b, leg) }
}

module Migrations {
  import opened JsText
  import opened MigrationSpec

  class MigrationBoard {
    var migratingLegIds: set<Text>
    var migrationWaiters: map<Text, seq<nat>>

    function State(): Board
      reads this
    {
      Board(migratingLegIds, migrationWaiters)
    }

    constructor ()
      ensures State() == QUIET
    {
      migratingLegIds, migrationWaiters := {}, map[];
    }

    method BeginLegMigration(leg: Text) returns (begun: bool)
      modifies this
      ensures begun <==> leg !in old(State()).migrating
      ensures State() == Begin(old(State()), leg)
    {
      if leg in migratingLegIds {
        assert migratingLegIds + {leg} == migratingLegIds;
        return false;
      }
      migratingLegIds := migratingLegIds + {leg};
      return true;
    }

    // The callers in `woken` run again, in that order.
    method EndLegMigration(leg: Text) returns (woken: seq<nat>)
      modifies this
      ensures State() == End(old(State()), leg) && woken == Woken(old(State()), leg)
    {
      if leg !in migratingLegIds {
        return [];
      }
      migratingLegIds := migratingLegIds - {leg};
      woken := if leg in migrationWaiters then migrationWaiters[leg] else [];
      migrationWaiters := migrationWaiters - {leg};
    }

    // The body of the waiting loop.
    method Check(leg: Text, caller: nat) returns (blocked: bool)
      modifies this
      ensures blocked <==> leg in old(State()).migrating
      ensures State() == Register(old(State()), leg, caller)
    {
      blocked := leg in migratingLegIds;
      if blocked {
        var waiters := if leg in migrationWaiters then migrationWaiters[leg] else [];
        waiters := waiters + [caller];
        migrationWaiters := migrationWaiters[leg := waiters];
      }
    }

    // Shutting down forgets every move and wakes every waiter.
    method Shutdown() returns (woken: seq<nat>)
      modifies this
      ensures State() == QUIET
      ensures forall c :: c in woken <==> exists leg :: Registered(old(State()), leg, c)
    {
      migratingLegIds := {};
      woken := [];
      while migrationWaiters.Keys != {}
        invariant migratingLegIds == {} && migrationWaiters.Keys <= old(migrationWaiters).Keys
        invariant forall leg :: leg in migrationWaiters ==> migrationWaiters[leg] == old(migrationWaiters)[leg]
        invariant forall leg, c :: leg in old(migrationWaiters) && leg !in migrationWaiters && c in old(migrationWaiters)[leg] ==> c in woken
        invariant forall c :: c in woken ==> exists leg :: Registered(old(State()), leg, c)
        decreases |migrationWaiters|
      {
        var leg :| leg in migrationWaiters.Keys;
        ghost var before := migrationWaiters;
        forall c | c in migrationWaiters[leg] ensures Registered(old(State()), leg, c) {
          assert c in old(migrationWaiters)[leg];
        }
        woken := woken + migrationWaiters[leg];
        migrationWaiters := migrationWaiters - {leg};
        assert before.Keys == migrationWaiters.Keys + {leg};
      }
    }
  }
}
