/** Creating, updating and deleting monitors (app/main.py). */
module Api {
  import opened Common
  import opened Monitors
  import opened Schemas
  import opened Db

  datatype Response =
    | Done(row: Row)
    | Deleted
    | NotFound
    | LimitReached
    | Unprocessable(rule: RuleError)
    | ServerError

  // ----- Create -----

  /** The row a valid create request stores. */
  function NewRow(p: MonitorCreate, now: Time): (r: Row)
    ensures ValidateCreate(p).None? ==> RowOk(r) && QuietWhenDisabled(r)
    ensures r.status == Pending && r.nextCheck == Some(now)
  {
    Row(p.name, p.url, p.checkInterval, Pending, None, Some(now), p.mode,
        p.keepAliveEnabled, p.keepAliveInterval, p.keepAlivePath,
        if p.keepAliveEnabled then Some(now) else None)
  }

  /** Every column of the request is stored as it came. */
  lemma NewRowStoresRequest(p: MonitorCreate, now: Time)
    ensures var r := NewRow(p, now);
            && r.name == p.name && r.url == p.url && r.checkInterval == p.checkInterval && r.mode == p.mode
            && r.keepAliveEnabled == p.keepAliveEnabled && r.keepAliveInterval == p.keepAliveInterval
            && r.keepAlivePath == p.keepAlivePath && r.status == Pending && r.lastChecked == None
            && r.nextCheck == Some(now)
            && (p.keepAliveEnabled ==> r.nextKeepAlive == Some(now)) && (!p.keepAliveEnabled ==> r.nextKeepAlive == None)
  {
  }

  method CreateMonitor(db: Database, p: MonitorCreate, maxMonitors: nat, now: Time) returns (r: Response)
    requires db.Valid()
    modifies db
    ensures db.Valid()
    ensures r.Done? <==> ValidateCreate(p).None? && |old(db.tables.monitors)| < maxMonitors
    ensures r.LimitReached? ==> |old(db.tables.monitors)| >= maxMonitors
    ensures !r.Done? ==> db.tables == old(db.tables) && db.nextId == old(db.nextId)
    ensures r.Done? ==>
              && old(db.nextId) !in old(db.tables.monitors)
              && db.tables.monitors == old(db.tables.monitors)[old(db.nextId) := NewRow(p, now)]
              && db.tables.results == old(db.tables.results)
              && |db.tables.monitors| <= maxMonitors
              && r.row == NewRow(p, now)
  {
    var invalid := ValidateCreate(p);
    if invalid.Some? {
      return Unprocessable(invalid.value);
    }
    var count := |db.tables.monitors|;
    if count >= maxMonitors {
      return LimitReached;
    }
    var row := NewRow(p, now);
    var id := db.nextId;
    db.nextId := id + 1;
    db.tables := db.tables.(monitors := db.tables.monitors[id := row]);
    assert db.tables.monitors.Keys == old(db.tables.monitors).Keys + {id};
    r := Done(row);
  }

  // ----- Update -----

  predicate Disables(u: MonitorUpdate) {
    u.keepAliveEnabled == Value(false)
  }

  function Patched<T>(f: Field<T>, current: T): T {
    if f.Value? then f.value else current
  }

  function PatchedOptional<T>(f: Field<T>, current: Option<T>, reset: bool): Option<T> {
    match f
    case Value(v) => Some(v)
    case Null => None
    case Absent => if reset then None else current
  }

  /** The row an accepted update leaves, column by column. */
  function Merged(row: Row, u: MonitorUpdate, now: Time): Row {
    var enabled := Patched(u.keepAliveEnabled, row.keepAliveEnabled);
    row.(
      name := Patched(u.name, row.name),
      checkInterval := Patched(u.checkInterval, row.checkInterval),
      mode := Patched(u.mode, if Disables(u) then Monitor else row.mode),
      keepAliveEnabled := enabled,
      keepAliveInterval := PatchedOptional(u.keepAliveInterval, row.keepAliveInterval, Disables(u)),
      keepAlivePath := PatchedOptional(u.keepAlivePath, row.keepAlivePath, Disables(u)),
      nextKeepAlive := if !enabled then None
                       else if row.nextKeepAlive.None? then Some(now)
                       else row.nextKeepAlive)
  }

  /** An explicit null for a column that cannot hold one. */
  predicate NullsRequiredColumn(u: MonitorUpdate) {
    u.name.Null? || u.checkInterval.Null? || u.mode.Null? || u.keepAliveEnabled.Null?
  }

  /** A null mode raises while the merged state is computed, a null flag contradicts nothing, and the other
      nulls are noticed at the commit, after the merged state was checked. */
  predicate FailsOnNull(row: Row, u: MonitorUpdate) {
    || u.mode.Null?
    || u.keepAliveEnabled.Null?
    || ((u.name.Null? || u.checkInterval.Null?) && MergesConsistently(row, u))
  }

  predicate MergesConsistently(row: Row, u: MonitorUpdate) {
    var m := Merged(row, u, 0);
    Consistent(m.mode, m.keepAliveEnabled, m.keepAliveInterval, m.keepAlivePath)
  }

  /** The exact acceptance condition of an update of a stored row. */
  predicate Accepts(row: Row, u: MonitorUpdate) {
    ValidateUpdate(u).None? && !NullsRequiredColumn(u) && MergesConsistently(row, u)
  }

  method UpdateMonitor(db: Database, id: Id, u: MonitorUpdate, now: Time) returns (r: Response)
    requires db.Valid()
    modifies db`tables
    ensures db.Valid()
    ensures r.Done? <==> id in old(db.tables.monitors) && Accepts(old(db.tables.monitors)[id], u)
    ensures r.Done? ==> db.tables == old(db.tables).(
                          monitors := old(db.tables.monitors)[id := Merged(old(db.tables.monitors)[id], u, now)])
    ensures r.Done? ==> r.row == Merged(old(db.tables.monitors)[id], u, now)
    ensures !r.Done? ==> db.tables == old(db.tables)
    // Which failure is reported.
    ensures r.NotFound? <==> ValidateUpdate(u).None? && id !in old(db.tables.monitors)
    ensures r.ServerError? <==>
              ValidateUpdate(u).None? && id in old(db.tables.monitors) && FailsOnNull(old(db.tables.monitors)[id], u)
    ensures r.Done? || r.NotFound? || r.ServerError? || r.Unprocessable?
  {
    var invalid := ValidateUpdate(u);
    if invalid.Some? {
      return Unprocessable(invalid.value);
    }
    if id !in db.tables.monitors {
      return NotFound;
    }
    var row := db.tables.monitors[id];
    var data := WithResets(row, u);

    // The merged state that is checked. MonitorMode(None) raises.
    if data.mode.Null? {
      return ServerError;
    }
    var targetMode := if data.mode.Value? then data.mode.value else row.mode;
    var targetEnabled := if data.keepAliveEnabled.Absent? then Some(row.keepAliveEnabled) else Given(data.keepAliveEnabled);
    var targetInterval := if data.keepAliveInterval.Absent? then row.keepAliveInterval else Given(data.keepAliveInterval);
    var targetPath := if data.keepAlivePath.Absent? then row.keepAlivePath else Given(data.keepAlivePath);
    var conflict := ValidateKeepAliveRules(Some(targetMode), targetEnabled, targetInterval, targetPath, true);
    if conflict.Some? {
      return Unprocessable(conflict.value);
    }

    var updated, nullStored := AssignColumns(row, u, data, now);
    if nullStored {
      return ServerError;
    }
    AcceptedIsConsistent(row, u, now);
    db.tables := db.tables.(monitors := db.tables.monitors[id := updated]);
    r := Done(updated);
  }

  /** Disabling keep-alive also clears, or resets, the columns that depend on it unless they are supplied. */
  method WithResets(row: Row, u: MonitorUpdate) returns (data: MonitorUpdate)
    ensures data.name == u.name && data.checkInterval == u.checkInterval && data.keepAliveEnabled == u.keepAliveEnabled
    ensures data.keepAliveInterval == if Disables(u) && u.keepAliveInterval.Absent? then Null else u.keepAliveInterval
    ensures data.keepAlivePath == if Disables(u) && u.keepAlivePath.Absent? then Null else u.keepAlivePath
    ensures data.mode == if Disables(u) && u.mode.Absent? && row.mode != Monitor then Value(Monitor) else u.mode
  {
    data := u;
    if data.keepAliveEnabled == Value(false) {
      if data.keepAliveInterval.Absent? {
        data := data.(keepAliveInterval := Null);
      }
      if data.keepAlivePath.Absent? {
        data := data.(keepAlivePath := Null);
      }
      if data.mode.Absent? && row.mode != Monitor {
        data := data.(mode := Value(Monitor));
      }
    }
  }

  /** Column assignments; a null in a required column is only noticed when the row is written. */
  method AssignColumns(before: Row, ghost u: MonitorUpdate, data: MonitorUpdate, now: Time)
    returns (row: Row, nullStored: bool)
    requires data.name == u.name && data.checkInterval == u.checkInterval && data.keepAliveEnabled == u.keepAliveEnabled
    requires data.keepAliveInterval == if Disables(u) && u.keepAliveInterval.Absent? then Null else u.keepAliveInterval
    requires data.keepAlivePath == if Disables(u) && u.keepAlivePath.Absent? then Null else u.keepAlivePath
    requires data.mode == if Disables(u) && u.mode.Absent? && before.mode != Monitor then Value(Monitor) else u.mode
    requires !u.mode.Null?
    ensures nullStored <==> NullsRequiredColumn(u)
    ensures !nullStored ==> row == Merged(before, u, now)
  {
    row := before;
    nullStored := data.name.Null? || data.checkInterval.Null? || data.keepAliveEnabled.Null?;
    if data.name.Value? {
      row := row.(name := data.name.value);
    }
    if data.checkInterval.Value? {
      row := row.(checkInterval := data.checkInterval.value);
    }
    if data.mode.Value? {
      row := row.(mode := data.mode.value);
    }
    if !data.keepAliveEnabled.Absent? {
      row := row.(keepAliveEnabled := data.keepAliveEnabled == Value(true));   // a null is falsy
    }
    if !data.keepAliveInterval.Absent? {
      row := row.(keepAliveInterval := Given(data.keepAliveInterval));
    }
    if !data.keepAlivePath.Absent? {
      row := row.(keepAlivePath := Given(data.keepAlivePath));
    }
    if row.keepAliveEnabled && row.nextKeepAlive.None? {
      row := row.(nextKeepAlive := Some(now));
    } else if !row.keepAliveEnabled {
      row := row.(nextKeepAlive := None);
    }
  }

  /** An accepted update leaves a consistent row, and the converse of the keep-alive due time holds again. */
  lemma AcceptedIsConsistent(row: Row, u: MonitorUpdate, now: Time)
    requires RowOk(row) && Accepts(row, u)
    ensures RowOk(Merged(row, u, now))
    ensures QuietWhenDisabled(Merged(row, u, now))
  {
    assert Merged(row, u, 0) == Merged(row, u, now).(nextKeepAlive := Merged(row, u, 0).nextKeepAlive);
  }

  /** Only supplied columns, the keep-alive reset columns and the keep-alive due time can change. */
  lemma AcceptedChangesOnlySupplied(row: Row, u: MonitorUpdate, now: Time)
    ensures var m := Merged(row, u, now);
            && m.url == row.url && m.status == row.status && m.lastChecked == row.lastChecked
            && m.nextCheck == row.nextCheck
            && (u.name.Absent? ==> m.name == row.name)
            && (u.checkInterval.Absent? ==> m.checkInterval == row.checkInterval)
            && (u.keepAliveEnabled.Absent? ==> m.keepAliveEnabled == row.keepAliveEnabled)
            && (u.mode.Absent? && !Disables(u) ==> m.mode == row.mode)
            && (u.keepAliveInterval.Absent? && !Disables(u) ==> m.keepAliveInterval == row.keepAliveInterval)
            && (u.keepAlivePath.Absent? && !Disables(u) ==> m.keepAlivePath == row.keepAlivePath)
            && (m.keepAliveEnabled && row.nextKeepAlive.Some? ==> m.nextKeepAlive == row.nextKeepAlive)
  {
  }

  /** Every supplied value is stored, disabling resets what is not supplied, and the keep-alive due time follows the
      flag: none while disabled, kept if there is one, otherwise now. */
  lemma SuppliedIsStored(row: Row, u: MonitorUpdate, now: Time)
    ensures var m := Merged(row, u, now);
            && (u.name.Value? ==> m.name == u.name.value)
            && (u.checkInterval.Value? ==> m.checkInterval == u.checkInterval.value)
            && (u.mode.Value? ==> m.mode == u.mode.value)
            && (u.keepAliveEnabled.Value? ==> m.keepAliveEnabled == u.keepAliveEnabled.value)
            && (u.keepAliveInterval.Value? ==> m.keepAliveInterval == Some(u.keepAliveInterval.value))
            && (u.keepAlivePath.Value? ==> m.keepAlivePath == Some(u.keepAlivePath.value))
            && (u.keepAliveInterval.Null? ==> m.keepAliveInterval == None)
            && (u.keepAlivePath.Null? ==> m.keepAlivePath == None)
            && (u.keepAliveEnabled == Value(false) ==>
                  && (u.mode.Absent? ==> m.mode == Monitor)
                  && (u.keepAliveInterval.Absent? ==> m.keepAliveInterval == None)
                  && (u.keepAlivePath.Absent? ==> m.keepAlivePath == None))
            && (!m.keepAliveEnabled ==> m.nextKeepAlive == None)
            && (m.keepAliveEnabled && row.nextKeepAlive.Some? ==> m.nextKeepAlive == row.nextKeepAlive)
            && (m.keepAliveEnabled && row.nextKeepAlive.None? ==> m.nextKeepAlive == Some(now))
  {
  }

  /** Repeating an accepted update, at any later time, is accepted and changes nothing. */
  lemma RepeatedUpdateChangesNothing(row: Row, u: MonitorUpdate, now: Time, later: Time)
    requires Accepts(row, u)
    ensures Accepts(Merged(row, u, now), u)
    ensures Merged(Merged(row, u, now), u, later) == Merged(row, u, now)
  {
    var once := Merged(row, u, now);
    var twice := Merged(once, u, 0);
    assert twice == once.(nextKeepAlive := twice.nextKeepAlive);
  }

  /** How far the payload check is stricter than the merged check: exactly by enabling without an interval. */
  lemma PayloadCheckGap(row: Row, u: MonitorUpdate)
    requires ValidateBounds(Given(u.name), Given(u.checkInterval), Given(u.keepAliveInterval), Given(u.keepAlivePath)).None?
    requires !NullsRequiredColumn(u)
    ensures Accepts(row, u) <==>
            MergesConsistently(row, u) && !(u.keepAliveEnabled == Value(true) && u.keepAliveInterval.Absent?)
  {
    var m := Merged(row, u, 0);
    if u.keepAliveEnabled.Value? {
      assert m.keepAliveEnabled == u.keepAliveEnabled.value;
    }
  }

  /** The gap is inhabited: enabling again a monitor that is enabled merges consistently but is refused. */
  lemma EnablingAgainIsRefused(row: Row)
    requires RowOk(row) && row.keepAliveEnabled
    ensures var u := MonitorUpdate(Absent, Absent, Absent, Value(true), Absent, Absent);
            MergesConsistently(row, u) && !Accepts(row, u)
  {
    var u := MonitorUpdate(Absent, Absent, Absent, Value(true), Absent, Absent);
    PayloadCheckGap(row, u);
  }

  /** An accepted null for the interval or the path leaves the column as it was exactly when it held nothing:
      a null clears the column. In the other columns a null is never accepted. */
  lemma NullClearsColumn(row: Row, u: MonitorUpdate, now: Time)
    requires Accepts(row, u)
    ensures u.keepAliveInterval.Null? ==>
              (Merged(row, u, now).keepAliveInterval == row.keepAliveInterval <==> row.keepAliveInterval.None?)
    ensures u.keepAlivePath.Null? ==>
              (Merged(row, u, now).keepAlivePath == row.keepAlivePath <==> row.keepAlivePath.None?)
    ensures !NullsRequiredColumn(u)
  {
  }

  /** A real input: a null path clears the path of an enabled monitor that has one. */
  lemma NullPathIsAccepted(row: Row, now: Time)
    requires RowOk(row) && row.keepAliveEnabled && row.keepAlivePath.Some?
    ensures var u := MonitorUpdate(Absent, Absent, Absent, Absent, Absent, Null);
            Accepts(row, u) && Merged(row, u, now) == row.(keepAlivePath := None)
  {
    var u := MonitorUpdate(Absent, Absent, Absent, Absent, Absent, Null);
    assert Merged(row, u, 0) == row.(keepAlivePath := None);
  }

  // ----- Delete -----

  method DeleteMonitor(db: Database, id: Id) returns (r: Response)
    requires db.Valid()
    modifies db`tables
    ensures db.Valid()
    ensures r == if id in old(db.tables.monitors) then Deleted else NotFound
    ensures r.NotFound? ==> db.tables == old(db.tables)
    ensures r.Deleted? ==>
              && db.tables.monitors == old(db.tables.monitors) - {id}
              && db.tables.results == ResultsOfOthers(old(db.tables.results), id)
  {
    if id !in db.tables.monitors {
      return NotFound;
    }
    db.tables := WithoutMonitor(db.tables, id);
    r := Deleted;
  }
}
