/**
 What outlives the process: the kernel's routing table and the stored route
 journal. Every call may fail without effect unless the machine is reliable;
 trace keeps the state after each call, that is, every state in which the
 process can stop.
 */
module Machines {
  import opened Routes
  import opened Undo

  datatype Outcome = Applied | AlreadyExists | Failed

  datatype Snapshot = Snapshot(table: Table, journal: map<string, Entry>)

  class Machine {
    const reliable: bool
    var table: Table
    var journal: map<string, Entry>
    ghost var trace: seq<Snapshot>

    constructor (reliable: bool, table: Table, journal: map<string, Entry>)
      ensures this.reliable == reliable && this.table == table && this.journal == journal && trace == []
    {
      this.reliable, this.table, this.journal, this.trace := reliable, table, journal, [];
    }

    /** An arbitrary failure, never one of a reliable machine. */
    method Fails() returns (fault: bool)
      ensures reliable ==> !fault
    {
      fault := *;
      fault := fault && !reliable;
    }

    method DefaultRoutes() returns (current: seq<Route>, o: Outcome)
      requires Proper(table)
      ensures o.Applied? ==> Lists(current, table)
      ensures !o.AlreadyExists? && (reliable ==> o.Applied?)
    {
      current, o := [], Failed;
      var fault := Fails();
      if fault { return; }
      o := Applied;
      var left := table.Keys;
      while left != {}
        invariant left <= table.Keys
        invariant forall i :: 0 <= i < |current| ==>
          SlotOf(current[i]) in table.Keys - left && table[SlotOf(current[i])] == current[i]
        invariant forall s :: s in table.Keys - left ==> table[s] in current
        invariant forall i, j :: 0 <= i < j < |current| ==> current[i] != current[j]
      {
        var s :| s in left;
        left := left - {s};
        current := current + [table[s]];
      }
    }

    method AddDefaultRoute(r: Route) returns (o: Outcome)
      modifies this
      ensures journal == old(journal) && trace == old(trace) + [Snapshot(table, journal)]
      ensures o.Applied? ==> SlotOf(r) !in old(table) && table == Inserted(old(table), r)
      ensures !o.Applied? ==> table == old(table)
      ensures o.AlreadyExists? ==> SlotOf(r) in table
      ensures reliable ==> !o.Failed?
    {
      var fault := Fails();
      if fault {
        o := Failed;
      } else if SlotOf(r) in table {
        o := AlreadyExists;
      } else {
        table := Inserted(table, r);
        o := Applied;
      }
      trace := trace + [Snapshot(table, journal)];
    }

    method DeleteDefaultRoute(r: Route) returns (o: Outcome)
      modifies this
      ensures journal == old(journal) && trace == old(trace) + [Snapshot(table, journal)]
      ensures table == if o.Applied? then Removed(old(table), r) else old(table)
      ensures !o.AlreadyExists? && (reliable ==> o.Applied?)
    {
      o := Applied;
      var fault := Fails();
      if fault {
        o := Failed;
      } else {
        table := Removed(table, r);
      }
      trace := trace + [Snapshot(table, journal)];
    }

    method PutRouteState(iface: string, entry: Entry) returns (o: Outcome)
      modifies this
      ensures table == old(table) && trace == old(trace) + [Snapshot(table, journal)]
      ensures journal == if o.Applied? then old(journal)[iface := entry] else old(journal)
      ensures !o.AlreadyExists? && (reliable ==> o.Applied?)
    {
      o := Applied;
      var fault := Fails();
      if fault {
        o := Failed;
      } else {
        journal := journal[iface := entry];
      }
      trace := trace + [Snapshot(table, journal)];
    }

    /** Refuses to overwrite an entry. */
    method SaveRouteState(iface: string, entry: Entry) returns (o: Outcome)
      modifies this
      ensures table == old(table)
      ensures o.Applied? ==> iface !in old(journal) && journal == old(journal)[iface := entry]
      ensures !o.Applied? ==> journal == old(journal)
      ensures o.AlreadyExists? ==> iface in journal
      ensures reliable ==> !o.Failed?
      ensures trace == old(trace) || trace == old(trace) + [Snapshot(table, journal)]
    {
      var fault := Fails();
      if fault {
        return Failed;
      }
      if iface in journal {
        return AlreadyExists;
      }
      o := PutRouteState(iface, entry);
    }

    method DeleteRouteState(iface: string) returns (o: Outcome)
      modifies this
      ensures table == old(table) && trace == old(trace) + [Snapshot(table, journal)]
      ensures journal == if o.Applied? then old(journal) - {iface} else old(journal)
      ensures !o.AlreadyExists? && (reliable ==> o.Applied?)
    {
      o := Applied;
      var fault := Fails();
      if fault {
        o := Failed;
      } else {
        journal := journal - {iface};
      }
      trace := trace + [Snapshot(table, journal)];
    }
  }
}
