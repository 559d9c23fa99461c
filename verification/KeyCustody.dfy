/**
 * Custody of the database key: the credential record that can hold a staged
 * replacement beside the current key, and rotation of the key with a failure
 * possible at every step.
 */
module KeyCustody {
  import opened Outcomes
  import opened BigEndian

  type Bytes = seq<Byte>

  const KEY_LENGTH: nat := 32

  type Key = k: Bytes | |k| == 32 witness ToBytes(0, 32)

  /** "SABERK01" */
  const RECORD_MAGIC: Bytes := [83, 65, 66, 69, 82, 75, 48, 49]

  function Record(primary: Key, fallback: Option<Key>): Bytes {
    match fallback
    case None => RECORD_MAGIC + primary + [0]
    case Some(next) => RECORD_MAGIC + primary + [1] + next
  }

  function Keys(primary: Key, fallback: Option<Key>): seq<Key> {
    if fallback.Some? then [primary, fallback.value] else [primary]
  }

  method WriteRecord(primary: Key, fallback: Option<Key>) returns (record: Bytes)
    ensures record == Record(primary, fallback)
  {
    record := [];
    record := record + RECORD_MAGIC;
    record := record + primary;
    record := record + [if fallback.Some? then 1 else 0];
    if fallback.Some? {
      record := record + fallback.value;
    }
  }

  /** The keys of a credential record, primary first; `None` when it is malformed. */
  function DecodeRecord(record: Bytes): Option<seq<Key>> {
    if |record| == KEY_LENGTH then Some([record])
    else if RECORD_MAGIC <= record && (|record| == 41 || |record| == 73) && record[40] <= 1
        && (record[40] == 0) == (|record| == 41) then
      if record[40] == 1 then Some([record[8..40], record[41..73]]) else Some([record[8..40]])
    else None
  }

  /** Reading back what was written yields the primary key and the fallback. */
  lemma DecodeInvertsWrite(primary: Key, fallback: Option<Key>)
    ensures DecodeRecord(Record(primary, fallback)) == Some(Keys(primary, fallback))
  {
    var record := Record(primary, fallback);
    assert record[..8] == RECORD_MAGIC && record[8..40] == primary;
    if fallback.Some? {
      assert record[41..73] == fallback.value;
    }
  }

  /** A record is accepted exactly when it is a bare legacy key or was written for some keys. */
  lemma DecodesExactlyRecords(record: Bytes)
    ensures DecodeRecord(record).Some?
            <==> |record| == KEY_LENGTH || exists primary, fallback :: record == Record(primary, fallback)
  {
    if DecodeRecord(record).Some? && |record| != KEY_LENGTH {
      var primary: Key := record[8..40];
      assert record[..8] == RECORD_MAGIC;
      if record[40] == 1 {
        var next: Key := record[41..73];
        assert record == Record(primary, Some(next));
      } else {
        assert record == Record(primary, None);
      }
    }
    if primary, fallback :| record == Record(primary, fallback) {
      DecodeInvertsWrite(primary, fallback);
    }
  }

  // ---------- rotation ----------

  /** One durable step: done, refused without effect, or done although it was reported as failed. */
  datatype Effect = Done | Refused | DoneButReported
  {
    predicate Happened() { !Refused? }

    predicate Reported() { !Done? }
  }

  /** What goes wrong in one rotation: credential writes, checkpointing, rekeying, the checks after it. */
  datatype Plan = Plan(stage: Effect, checkpointFails: bool, rekey: Effect, checkFails: bool, commit: Effect)

  /**
   * The credential record, the key the database file is encrypted with, the
   * key the running process holds, and whether a rotation failed since it was
   * opened.
   */
  datatype World = World(record: Bytes, databaseKey: Key, session: Option<Key>, failed: bool)

  /** `open` finds a candidate that decrypts the database. */
  predicate Openable(w: World) {
    DecodeRecord(w.record).Some? && w.databaseKey in DecodeRecord(w.record).value
  }

  function AfterOpen(w: World): World {
    if Openable(w) then w.(session := Some(w.databaseKey), failed := false) else w.(session := None, failed := false)
  }

  /** One rotation in a process that holds a key; the result is whether it succeeded. */
  function AfterRotation(w: World, next: Key, plan: Plan): (World, bool)
    requires w.session.Some?
  {
    var staged := w.(record := if plan.stage.Happened() then Record(w.session.value, Some(next)) else w.record);
    if plan.stage.Reported() || plan.checkpointFails then (staged.(failed := true), false)
    else
      var rekeyed := staged.(databaseKey := if plan.rekey.Happened() then next else w.databaseKey);
      if plan.rekey.Reported() || plan.checkFails then (rekeyed.(failed := true), false)
      else
        var committed := rekeyed.(record := if plan.commit.Happened() then Record(next, None) else rekeyed.record);
        if plan.commit.Reported() then (committed.(failed := true), false)
        else (committed.(session := Some(next)), true)
  }

  class KeyedStore {
    var record: Bytes
    var databaseKey: Key
    var session: Option<Key>
    ghost var failed: bool

    ghost function View(): World
      reads this
    {
      World(record, databaseKey, session, failed)
    }

    constructor (key: Key)
      ensures View() == World(Record(key, None), key, None, false)
    {
      databaseKey, session, failed := key, None, false;
      new;
      var written := WriteRecord(key, None);
      record := written;
    }

    method Stop()
      modifies this
      ensures View() == old(View()).(session := None)
    {
      session := None;
    }

    /** Tries the candidates in order; the first that decrypts the database becomes the session key. */
    method Open() returns (found: bool)
      modifies this
      ensures View() == AfterOpen(old(View())) && found == Openable(old(View()))
    {
      failed, session := false, None;
      var candidates := DecodeRecord(record);
      if candidates.None? {
        return false;
      }
      var i := 0;
      while i < |candidates.value|
        invariant 0 <= i <= |candidates.value|
        invariant View() == old(View()).(session := None, failed := false)
        invariant databaseKey !in candidates.value[..i]
      {
        if candidates.value[i] == databaseKey {
          session := Some(candidates.value[i]);
          return true;
        }
        i := i + 1;
      }
      return false;
    }

    method RotateDatabaseKey(next: Key, plan: Plan) returns (rotated: bool)
      requires session.Some?
      modifies this
      ensures (View(), rotated) == AfterRotation(old(View()), next, plan)
    {
      hide Record;
      if plan.stage.Happened() {
        var staged := WriteRecord(session.value, Some(next));
        record := staged;
      }
      if plan.stage.Reported() || plan.checkpointFails {
        failed := true;
        return false;
      }
      if plan.rekey.Happened() {
        databaseKey := next;
      }
      if plan.rekey.Reported() || plan.checkFails {
        failed := true;
        return false;
      }
      if plan.commit.Happened() {
        var committed := WriteRecord(next, None);
        record := committed;
      }
      if plan.commit.Reported() {
        failed := true;
        return false;
      }
      session := Some(next);
      return true;
    }
  }

  // ---------- every run keeps the database openable ----------

  datatype Action = Open | Stop | Rotate(next: Key, plan: Plan)

  function Perform(w: World, a: Action): World {
    match a
    case Open => AfterOpen(w)
    case Stop => w.(session := None)
    case Rotate(next, plan) => if w.session.Some? then AfterRotation(w, next, plan).0 else w
  }

  function Run(w: World, actions: seq<Action>): World {
    if actions == [] then w else Perform(Run(w, actions[..|actions| - 1]), actions[|actions| - 1])
  }

  /** No rotation starts in a process where one failed since it opened the store. */
  predicate Disciplined(w: World, actions: seq<Action>) {
    forall i | 0 <= i < |actions| && actions[i].Rotate? ::
        Run(w, actions[..i]).session.Some? ==> !Run(w, actions[..i]).failed
  }

  /** The database can be opened, and a process without a failed rotation holds the right key. */
  predicate Sound(w: World) {
    Openable(w) && (w.session.Some? && !w.failed ==> w.session.value == w.databaseKey)
  }

  lemma RotationKeepsSound(w: World, next: Key, plan: Plan)
    requires Openable(w) && w.session == Some(w.databaseKey)
    ensures Sound(AfterRotation(w, next, plan).0)
  {
    DecodeInvertsWrite(w.session.value, Some(next));
    DecodeInvertsWrite(next, None);
    hide Record, DecodeRecord;
  }

  /** The database is rekeyed: the replacement is staged, the log is checkpointed, and the rekey takes effect. */
  predicate Rekeys(plan: Plan) {
    plan.stage == Done && !plan.checkpointFails && plan.rekey != Refused
  }

  /** The replacement is committed as the only recorded key. */
  predicate Commits(plan: Plan) {
    Rekeys(plan) && plan.rekey == Done && !plan.checkFails && plan.commit != Refused
  }

  /**
   * A rotation succeeds exactly when no step fails, and then the database, the
   * record and the process all have the new key alone; otherwise the process
   * keeps its key, and what is on disk is as far as the steps got.
   */
  lemma RotationOutcome(w: World, next: Key, plan: Plan)
    requires w.session.Some?
    ensures var (w', rotated) := AfterRotation(w, next, plan);
            && (rotated <==> plan.stage == Done && !plan.checkpointFails && plan.rekey == Done && !plan.checkFails
                             && plan.commit == Done)
            && w'.session == Some(if rotated then next else w.session.value)
            && w'.failed == (w.failed || !rotated)
            && w'.databaseKey == (if Rekeys(plan) then next else w.databaseKey)
            && if Commits(plan) then DecodeRecord(w'.record) == Some([next])
               else if plan.stage != Refused then DecodeRecord(w'.record) == Some([w.session.value, next])
               else w'.record == w.record
  {
    DecodeInvertsWrite(w.session.value, Some(next));
    DecodeInvertsWrite(next, None);
    hide Record, DecodeRecord;
  }

  /**
   * Over any sequence of openings, stops and rotations failing at any step,
   * with a reopening between a failed rotation and the next one, the database
   * key is always among the recorded candidates.
   */
  lemma {:induction false} RunsStayOpenable(key: Key, actions: seq<Action>)
    requires Disciplined(World(Record(key, None), key, None, false), actions)
    ensures Sound(Run(World(Record(key, None), key, None, false), actions))
  {
    var start := World(Record(key, None), key, None, false);
    if actions == [] {
      DecodeInvertsWrite(key, None);
    } else {
      var init, last := actions[..|actions| - 1], actions[|actions| - 1];
      assert Disciplined(start, init) by {
        forall i | 0 <= i < |init| && init[i].Rotate?
          ensures Run(start, init[..i]).session.Some? ==> !Run(start, init[..i]).failed
        {
          assert init[..i] == actions[..i] && init[i] == actions[i];
        }
      }
      RunsStayOpenable(key, init);
      var w := Run(start, init);
      if last.Rotate? && w.session.Some? {
        RotationKeepsSound(w, last.next, last.plan);
      }
    }
  }

  /**
   * Why the reopening is needed: from an openable store, a rotation keeps the
   * database openable whatever fails exactly when the key the process stages
   * as current, or the replacement, is the one the database is encrypted with.
   */
  lemma RotationSafeIff(w: World, next: Key)
    requires Openable(w) && w.session.Some?
    ensures (forall plan :: Openable(AfterRotation(w, next, plan).0))
            <==> w.session.value == w.databaseKey || next == w.databaseKey
  {
    DecodeInvertsWrite(w.session.value, Some(next));
    DecodeInvertsWrite(next, None);
    hide Record, DecodeRecord;
    if w.session.value != w.databaseKey && next != w.databaseKey {
      var stuck := Plan(Done, false, Refused, false, Done);
      assert !Openable(AfterRotation(w, next, stuck).0);
    }
  }

  /** A rotation that failed after rekeying, followed by another without reopening, loses the key. */
  lemma RotatingAgainWithoutReopeningLosesTheKey(first: Key, second: Key, third: Key)
    requires first != second && second != third
    ensures var start := World(Record(first, None), first, None, false);
            var lost := Run(start,
                [Open, Rotate(second, Plan(Done, false, Done, false, Refused)),
                Rotate(third, Plan(Done, false, Refused, false, Done))]);
            !Openable(lost)
  {
    var start := World(Record(first, None), first, None, false);
    var a1, a2 := Rotate(second, Plan(Done, false, Done, false, Refused)),
        Rotate(third, Plan(Done, false, Refused, false, Done));
    DecodeInvertsWrite(first, None);
    DecodeInvertsWrite(first, Some(third));
    assert [Open, a1, a2][..2] == [Open, a1] && [Open, a1][..1] == [Open] && [Open][..0] == [];
    assert Run(start, []) == start;
    var running := Run(start, [Open]);
    assert running == start.(session := Some(first));
    var failed := Run(start, [Open, a1]);
    assert failed == World(Record(first, Some(second)), second, Some(first), true);
  }
}
