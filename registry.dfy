/**
 * A registry of external processes keyed by device serial: the module-level dictionaries
 * `activeMirrors` (electron/adb.ts) and `activeRecordings` (electron/screenUtils.ts).
 * Both are driven the same way by four events: start (refused while the serial is taken),
 * stop (kill with SIGTERM and delete at once), and the process's own exit.
 */
module Registry {
  import opened Wrappers

  /** A spawned process, named by its position in the registry's launch log. */
  type ProcId = nat

  /** One spawn: the device it was started for, the program, and its argument list. */
  datatype Launch = Launch(serial: string, program: string, args: seq<string>)

  datatype StartResult = Started(pid: ProcId) | AlreadyRunning | SpawnFailed(message: string)

  class ProcessRegistry {
    /** The dictionary itself: serial to process handle. */
    var entries: map<string, ProcId>
    /** Every process spawned through this registry, in spawn order. */
    var launches: seq<Launch>
    /** Every SIGTERM sent, in order. */
    var kills: seq<ProcId>
    /** The processes whose exit event has been delivered. */
    var exited: set<ProcId>

    /** A registered process was spawned for that serial, is still running and was never signalled. */
    ghost predicate Valid()
      reads this
    {
      && (forall s :: s in entries ==> entries[s] < |launches| && launches[entries[s]].serial == s)
      && (forall s :: s in entries ==> entries[s] !in exited && entries[s] !in kills)
      && (forall p :: p in exited ==> p < |launches|)
      && (forall i :: 0 <= i < |kills| ==> kills[i] < |launches|)
    }

    /** A process that is running and was never signalled is the one registered for its serial. */
    ghost predicate Tracked()
      reads this
    {
      forall p :: 0 <= p < |launches| && p !in exited && p !in kills ==>
        launches[p].serial in entries && entries[launches[p].serial] == p
    }

    constructor ()
      ensures Valid() && Tracked()
      ensures entries == map[] && launches == [] && kills == [] && exited == {}
    {
      entries, launches, kills, exited := map[], [], [], {};
    }

    /** `Boolean(active[serial])`. */
    function IsActive(serial: string): (r: bool)
      requires Valid()
      reads this
      ensures r ==> serial in entries && entries[serial] < |launches|
      ensures r ==> launches[entries[serial]].serial == serial
      ensures r ==> entries[serial] !in exited && entries[serial] !in kills
    {
      serial in entries
    }

    /**
     * Spawn `program args` for `serial` and register it, unless the serial is taken.
     * `spawnError` is the exception the spawn call throws, if it throws.
     */
    method Start(serial: string, program: string, args: seq<string>, spawnError: Option<string>)
      returns (r: StartResult)
      requires Valid()
      modifies this
      ensures Valid()
      ensures old(Tracked()) ==> Tracked()
      ensures serial in old(entries) ==> r == AlreadyRunning && unchanged(this)
      ensures serial !in old(entries) && spawnError.Some? ==>
        r == SpawnFailed(spawnError.value) && unchanged(this)
      ensures serial !in old(entries) && spawnError.None? ==>
        && r == Started(|old(launches)|)
        && launches == old(launches) + [Launch(serial, program, args)]
        && entries == old(entries)[serial := r.pid]
        && kills == old(kills) && exited == old(exited)
    {
      if serial in entries {
        return AlreadyRunning;
      }
      if spawnError.Some? {
        return SpawnFailed(spawnError.value);
      }
      var pid := |launches|;
      launches := launches + [Launch(serial, program, args)];
      entries := entries[serial := pid];
      r := Started(pid);
    }

    /** `proc.kill("SIGTERM"); delete active[serial]`, when there is an entry. */
    method Stop(serial: string) returns (found: bool)
      requires Valid()
      modifies this
      ensures Valid()
      ensures old(Tracked()) ==> Tracked()
      ensures found == (serial in old(entries))
      ensures found ==> kills == old(kills) + [old(entries)[serial]] && entries == old(entries) - {serial}
      ensures !found ==> unchanged(this)
      ensures launches == old(launches) && exited == old(exited)
      ensures !IsActive(serial)
    {
      found := serial in entries;
      if found {
        kills := kills + [entries[serial]];
        entries := entries - {serial};
      }
    }

    /**
     * The exit handler as the source has it: `delete active[serial]` for the serial the
     * process was started for, whatever is registered there now.
     */
    method Exit(p: ProcId)
      requires Valid()
      requires p < |launches| && p !in exited
      modifies this
      ensures launches == old(launches) && kills == old(kills)
      ensures Valid()
      ensures entries == old(entries) - {launches[p].serial}
      ensures exited == old(exited) + {p}
    {
      entries := entries - {launches[p].serial};
      exited := exited + {p};
    }

    /** The exit handler corrected: the entry goes only when it is still this process. */
    method ExitOf(p: ProcId)
      requires Valid()
      requires p < |launches| && p !in exited
      modifies this
      ensures launches == old(launches) && kills == old(kills)
      ensures Valid()
      ensures old(Tracked()) ==> Tracked()
      ensures var s := launches[p].serial;
        entries == if s in old(entries) && old(entries)[s] == p then old(entries) - {s} else old(entries)
      ensures exited == old(exited) + {p}
    {
      var s := launches[p].serial;
      if s in entries && entries[s] == p {
        entries := entries - {s};
      }
      exited := exited + {p};
    }

    /** While the registry is tracked, no two unsignalled running processes share a serial. */
    lemma AtMostOneRunning(p: ProcId, q: ProcId)
      requires Valid() && Tracked()
      requires p < |launches| && p !in exited && p !in kills
      requires q < |launches| && q !in exited && q !in kills
      requires launches[p].serial == launches[q].serial
      ensures p == q
    {
    }
  }

  /**
   * The race the unconditional exit handler allows: stop D, start D again, and the first
   * process's late exit event deletes the entry of the second, which keeps running untracked.
   */
  method StaleExitScenario() returns (secondRunning: bool, secondRegistered: bool)
    ensures secondRunning && !secondRegistered
  {
    var reg := new ProcessRegistry();
    var first := reg.Start("D", "scrcpy", ["-s", "D"], None);
    var stopped := reg.Stop("D");
    var second := reg.Start("D", "scrcpy", ["-s", "D"], None);
    reg.Exit(first.pid);
    secondRunning := second.pid < |reg.launches| && second.pid !in reg.exited && second.pid !in reg.kills;
    secondRegistered := ("D", second.pid) in reg.entries.Items;
  }

  /** The same events with the corrected handler: the second process stays registered. */
  method GuardedExitScenario() returns (secondRunning: bool, secondRegistered: bool)
    ensures secondRunning && secondRegistered
  {
    var reg := new ProcessRegistry();
    var first := reg.Start("D", "scrcpy", ["-s", "D"], None);
    var stopped := reg.Stop("D");
    var second := reg.Start("D", "scrcpy", ["-s", "D"], None);
    reg.ExitOf(first.pid);
    secondRunning := second.pid < |reg.launches| && second.pid !in reg.exited && second.pid !in reg.kills;
    secondRegistered := ("D", second.pid) in reg.entries.Items;
  }
}
