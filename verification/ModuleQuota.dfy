/** Enabling modules within the limits of the active plan, and their settings
    (`app/modules/manager.py`). */
module ModuleQuota {
  import opened Common
  import Billing

  type Json = string

  datatype UserModule = UserModule(userId: int, moduleId: int, enabled: bool)

  datatype Error = PermissionDenied | Conflict | NotFound | MultipleRows

  /** What the rows say about one module of one user, ids forgotten. */
  datatype Installed = Installed(enabled: bool, settings: map<string, Json>)

  type Catalogue = map<(int, int), Installed>

  /** The limit that `_check_limit` reads: the active subscription's plan. */
  ghost function Quota(billing: Billing.Db, userId: int): Result<int, Error> {
    match Billing.ActiveForUser(billing.subscriptions, userId)
    case Err(_) => Err(MultipleRows)
    case Ok(None) => Err(PermissionDenied)
    case Ok(Some(id)) =>
      if id in billing.subscriptions && billing.subscriptions[id].planId in billing.plans
      then Ok(billing.plans[billing.subscriptions[id].planId].maxModules)
      else Err(PermissionDenied)
  }

  ghost function EnabledCount(installed: Catalogue, userId: int): nat {
    |EnabledModules(installed, userId)|
  }

  ghost function EnabledModules(installed: Catalogue, userId: int): set<(int, int)> {
    set at | at in installed && at.0 == userId && installed[at].enabled
  }

  // ----- The catalogue as an abstract machine -----

  datatype Operation =
    | Enable(userId: int, moduleId: int, quota: Result<int, Error>)
    | Disable(userId: int, moduleId: int)
    | SetSetting(userId: int, moduleId: int, key: string, value: Json)

  ghost function Refusal(installed: Catalogue, op: Operation): Option<Error> {
    match op
    case Enable(userId, _, quota) =>
      if quota.Err? then Some(quota.error)
      else if EnabledCount(installed, userId) >= quota.value then Some(Conflict) else None
    case Disable(userId, moduleId) => if (userId, moduleId) in installed then None else Some(NotFound)
    case SetSetting(userId, moduleId, _, _) =>
      if (userId, moduleId) in installed && installed[(userId, moduleId)].enabled then None else Some(Conflict)
  }

  function WithSetting(installed: Catalogue, at: (int, int), key: string, value: Json): Catalogue
    requires at in installed
  {
    installed[at := installed[at].(settings := installed[at].settings[key := value])]
  }

  ghost function Apply(installed: Catalogue, op: Operation): Catalogue {
    var at := (op.userId, op.moduleId);
    if Refusal(installed, op).Some? then installed else
    match op
    case Enable(_, _, _) => installed[at := Installed(true, if at in installed then installed[at].settings else map[])]
    case Disable(_, _) => installed[at := installed[at].(enabled := false)]
    case SetSetting(_, _, key, value) => WithSetting(installed, at, key, value)
  }

  ghost function After(installed: Catalogue, ops: seq<Operation>): Catalogue {
    if ops == [] then installed else Apply(After(installed, Init(ops)), Last(ops))
  }

  // ----- The tables -----

  /** `user_modules` by id, and `module_settings` by its unique pair of row and key. */
  datatype Tables = Tables(rows: map<int, UserModule>, settings: map<(int, string), Json>, nextRow: int)

  function At(row: UserModule): (int, int) {
    (row.userId, row.moduleId)
  }

  function SettingsOfRow(settings: map<(int, string), Json>, id: int): map<string, Json> {
    map p | p in settings && p.0 == id :: p.1 := settings[p]
  }

  function EnabledRowIds(rows: map<int, UserModule>, userId: int): set<int> {
    set id | id in rows && rows[id].userId == userId && rows[id].enabled
  }

  ghost predicate RowShown(t: Tables, installed: Catalogue, id: int)
    requires id in t.rows
  {
    var at := At(t.rows[id]);
    at in installed && installed[at].enabled == t.rows[id].enabled
      && installed[at].settings == SettingsOfRow(t.settings, id)
  }

  ghost predicate HasRow(t: Tables, at: (int, int)) {
    exists id :: id in t.rows && At(t.rows[id]) == at
  }

  /** One row per user and module, settings belong to rows, and the catalogue is what they say. */
  ghost predicate Shows(t: Tables, installed: Catalogue) {
    && (forall id | id in t.rows :: id < t.nextRow && RowShown(t, installed, id))
    && (forall a, b | a in t.rows && b in t.rows && At(t.rows[a]) == At(t.rows[b]) :: a == b)
    && (forall at | at in installed :: HasRow(t, at))
    && (forall p | p in t.settings :: p.0 in t.rows)
  }

  /** The tables determine the catalogue. */
  lemma ShownCatalogueUnique(t: Tables, a: Catalogue, b: Catalogue)
    requires Shows(t, a) && Shows(t, b)
    ensures a == b
  {
    forall at | at in a || at in b ensures at in a && at in b && a[at] == b[at] {
      assert HasRow(t, at);
      var id :| id in t.rows && At(t.rows[id]) == at;
      assert RowShown(t, a, id) && RowShown(t, b, id);
    }
  }

  lemma RowSwitched(t: Tables, installed: Catalogue, id: int, enabled: bool)
    requires Shows(t, installed) && id in t.rows
    ensures At(t.rows[id]) in installed
    ensures var at := At(t.rows[id]);
            Shows(t.(rows := t.rows[id := t.rows[id].(enabled := enabled)]),
              installed[at := installed[at].(enabled := enabled)])
  {
    assert RowShown(t, installed, id);
    var at := At(t.rows[id]);
    var t' := t.(rows := t.rows[id := t.rows[id].(enabled := enabled)]);
    var installed' := installed[at := installed[at].(enabled := enabled)];
    forall other | other in t'.rows ensures RowShown(t', installed', other) {
      assert RowShown(t, installed, other);
    }
    forall k | k in installed' ensures HasRow(t', k) {
      assert HasRow(t, k);
      var other :| other in t.rows && At(t.rows[other]) == k;
      assert other in t'.rows && At(t'.rows[other]) == k;
    }
  }

  lemma RowAdded(t: Tables, installed: Catalogue, userId: int, moduleId: int)
    requires Shows(t, installed) && (userId, moduleId) !in installed
    ensures Shows(t.(rows := t.rows[t.nextRow := UserModule(userId, moduleId, true)], nextRow := t.nextRow + 1),
                  installed[(userId, moduleId) := Installed(true, map[])])
  {
    var t' := t.(rows := t.rows[t.nextRow := UserModule(userId, moduleId, true)], nextRow := t.nextRow + 1);
    var installed' := installed[(userId, moduleId) := Installed(true, map[])];
    forall id | id in t'.rows ensures RowShown(t', installed', id) {
      if id in t.rows {
        assert RowShown(t, installed, id);
      } else {
        assert SettingsOfRow(t.settings, id) == map[];
      }
    }
    forall k | k in installed' ensures HasRow(t', k) {
      if k == (userId, moduleId) {
        assert At(t'.rows[t.nextRow]) == k;
      } else {
        assert HasRow(t, k);
        var id :| id in t.rows && At(t.rows[id]) == k;
        assert id in t'.rows && At(t'.rows[id]) == k;
      }
    }
    forall a, b | a in t'.rows && b in t'.rows && At(t'.rows[a]) == At(t'.rows[b]) ensures a == b {
      assert a in t.rows ==> RowShown(t, installed, a);
      assert b in t.rows ==> RowShown(t, installed, b);
    }
  }

  lemma SettingOfOneRow(settings: map<(int, string), Json>, id: int, key: string, value: Json, other: int)
    ensures SettingsOfRow(settings[(id, key) := value], other)
         == if other == id then SettingsOfRow(settings, id)[key := value] else SettingsOfRow(settings, other)
  {
    var after := SettingsOfRow(settings[(id, key) := value], other);
    var expected := if other == id then SettingsOfRow(settings, id)[key := value] else SettingsOfRow(settings, other);
    forall k ensures k in after <==> k in expected {
      assert k in after <==> (other, k) in settings[(id, key) := value];
      assert k in SettingsOfRow(settings, other) <==> (other, k) in settings;
    }
    forall k | k in after ensures after[k] == expected[k] {
      assert after[k] == settings[(id, key) := value][(other, k)];
    }
  }

  lemma SettingWritten(t: Tables, installed: Catalogue, id: int, key: string, value: Json)
    requires Shows(t, installed) && id in t.rows
    ensures At(t.rows[id]) in installed
    ensures var at := At(t.rows[id]);
            Shows(t.(settings := t.settings[(id, key) := value]), WithSetting(installed, at, key, value))
  {
    assert RowShown(t, installed, id);
    var at := At(t.rows[id]);
    var t' := t.(settings := t.settings[(id, key) := value]);
    var installed' := WithSetting(installed, at, key, value);
    forall other | other in t'.rows ensures RowShown(t', installed', other) {
      assert RowShown(t, installed, other);
      SettingOfOneRow(t.settings, id, key, value, other);
    }
    forall k | k in installed' ensures HasRow(t', k) {
      assert HasRow(t, k);
    }
  }

  /** Counting rows is counting modules. */
  lemma EnabledRows(t: Tables, installed: Catalogue, userId: int)
    requires Shows(t, installed)
    ensures |EnabledRowIds(t.rows, userId)| == EnabledCount(installed, userId)
  {
    var ids := EnabledRowIds(t.rows, userId);
    var at := (id: int) => if id in t.rows then At(t.rows[id]) else (0, 0);
    forall a, b | a in ids && b in ids && at(a) == at(b) ensures a == b {
      assert At(t.rows[a]) == At(t.rows[b]);
    }
    ImageCardinality(ids, at);
    var image := Image(ids, at);
    forall k | k in EnabledModules(installed, userId) ensures k in image {
      assert HasRow(t, k);
      var id :| id in t.rows && At(t.rows[id]) == k;
      assert RowShown(t, installed, id);
      assert id in ids && at(id) == k;
    }
    forall k | k in image ensures k in EnabledModules(installed, userId) {
      var id :| id in ids && at(id) == k;
      assert RowShown(t, installed, id);
    }
    assert image == EnabledModules(installed, userId);
  }

  class ModuleManager {
    var rows: map<int, UserModule>
    var settings: map<(int, string), Json>
    var nextRow: int
    ghost var installed: Catalogue

    ghost predicate Valid()
      reads this
    {
      Shows(State(), installed)
    }

    ghost function State(): Tables
      reads this
    {
      Tables(rows, settings, nextRow)
    }

    constructor ()
      ensures Valid() && installed == map[]
    {
      rows, settings, nextRow, installed := map[], map[], 1, map[];
    }

    method FindRow(userId: int, moduleId: int) returns (found: Option<int>)
      requires Valid()
      ensures found.Some? <==> (userId, moduleId) in installed
      ensures found.Some? ==> found.value in rows && At(rows[found.value]) == (userId, moduleId)
    {
      var ids := set id | id in rows && rows[id].userId == userId && rows[id].moduleId == moduleId;
      if ids == {} {
        assert forall id | id in rows :: id !in ids;
        assert (userId, moduleId) in installed ==> HasRow(State(), (userId, moduleId));
        return None;
      }
      var id := PickOne(ids);
      assert RowShown(State(), installed, id);
      return Some(id);
    }

    method CountEnabled(userId: int) returns (count: nat)
      requires Valid()
      ensures count == EnabledCount(installed, userId)
    {
      var ids := EnabledRowIds(rows, userId);
      EnabledRows(State(), installed, userId);
      return |ids|;
    }

    /** `_check_limit`; None when the user may enable one more module. */
    method CheckLimit(billing: Billing.BillingService, userId: int) returns (error: Option<Error>)
      requires Valid()
      ensures var quota := Quota(billing.State(), userId);
              error == if quota.Err? then Some(quota.error)
                       else if EnabledCount(installed, userId) >= quota.value then Some(Conflict) else None
    {
      var active := billing.FindActive(userId);
      if active.Err? {
        return Some(MultipleRows);
      }
      if active.value.None? || active.value.value !in billing.subscriptions {
        return Some(PermissionDenied);
      }
      var planId := billing.subscriptions[active.value.value].planId;
      if planId !in billing.plans {
        return Some(PermissionDenied);
      }
      var count := CountEnabled(userId);
      if count >= billing.plans[planId].maxModules {
        return Some(Conflict);
      }
      return None;
    }

    method EnableModule(billing: Billing.BillingService, userId: int, moduleId: int) returns (error: Option<Error>)
      requires Valid()
      modifies this
      ensures Valid()
      ensures var op := Enable(userId, moduleId, old(Quota(billing.State(), userId)));
              error == Refusal(old(installed), op) && installed == Apply(old(installed), op)
    {
      error := CheckLimit(billing, userId);
      if error.Some? {
        return;
      }
      SwitchOn(userId, moduleId);
    }

    method SwitchOn(userId: int, moduleId: int)
      requires Valid()
      modifies this
      ensures Valid()
      ensures var at := (userId, moduleId);
              var kept := if at in old(installed) then old(installed)[at].settings else map[];
              installed == old(installed)[at := Installed(true, kept)]
    {
      var found := FindRow(userId, moduleId);
      match found {
        case None => AddRow(userId, moduleId);
        case Some(id) => SwitchRow(id, true);
      }
    }

    method AddRow(userId: int, moduleId: int)
      requires Valid() && (userId, moduleId) !in installed
      modifies this
      ensures Valid() && installed == old(installed)[(userId, moduleId) := Installed(true, map[])]
    {
      ghost var tables, before := State(), installed;
      RowAdded(tables, before, userId, moduleId);
      ghost var tables' := tables.(rows := tables.rows[tables.nextRow := UserModule(userId, moduleId, true)],
        nextRow := tables.nextRow + 1);
      rows, nextRow := rows[nextRow := UserModule(userId, moduleId, true)], nextRow + 1;
      installed := before[(userId, moduleId) := Installed(true, map[])];
      assert State() == tables';
    }

    method SwitchRow(id: int, enabled: bool)
      requires Valid() && id in rows
      modifies this
      ensures Valid() && At(old(rows)[id]) in old(installed)
      ensures var at := At(old(rows)[id]);
              installed == old(installed)[at := old(installed)[at].(enabled := enabled)]
    {
      ghost var tables, before, at := State(), installed, At(rows[id]);
      RowSwitched(tables, before, id, enabled);
      ghost var tables' := tables.(rows := tables.rows[id := tables.rows[id].(enabled := enabled)]);
      rows := rows[id := rows[id].(enabled := enabled)];
      installed := before[at := before[at].(enabled := enabled)];
      assert State() == tables';
    }

    method DisableModule(userId: int, moduleId: int) returns (error: Option<Error>)
      requires Valid()
      modifies this
      ensures Valid()
      ensures var op := Disable(userId, moduleId);
              error == Refusal(old(installed), op) && installed == Apply(old(installed), op)
    {
      var found := FindRow(userId, moduleId);
      if found.None? {
        return Some(NotFound);
      }
      SwitchRow(found.value, false);
      return None;
    }

    method SetModuleSetting(userId: int, moduleId: int, key: string, value: Json) returns (error: Option<Error>)
      requires Valid()
      modifies this
      ensures Valid()
      ensures var op := SetSetting(userId, moduleId, key, value);
              error == Refusal(old(installed), op) && installed == Apply(old(installed), op)
    {
      var found := FindRow(userId, moduleId);
      if found.Some? {
        assert RowShown(State(), installed, found.value);
      }
      if found.None? || !rows[found.value].enabled {
        return Some(Conflict);
      }
      WriteSetting(found.value, key, value);
      return None;
    }

    method WriteSetting(id: int, key: string, value: Json)
      requires Valid() && id in rows
      modifies this
      ensures Valid()
      ensures At(old(rows)[id]) in old(installed)
      ensures installed == WithSetting(old(installed), At(old(rows)[id]), key, value)
    {
      ghost var tables, before := State(), installed;
      SettingWritten(tables, before, id, key, value);
      ghost var tables' := tables.(settings := tables.settings[(id, key) := value]);
      settings := settings[(id, key) := value];
      installed := WithSetting(before, At(tables.rows[id]), key, value);
      assert State() == tables';
    }

    method SettingsFor(userId: int, moduleId: int) returns (values: map<string, Json>)
      requires Valid()
      ensures values == if (userId, moduleId) in installed then installed[(userId, moduleId)].settings else map[]
    {
      var found := FindRow(userId, moduleId);
      if found.None? {
        return map[];
      }
      assert RowShown(State(), installed, found.value);
      return SettingsOfRow(settings, found.value);
    }
  }

  // ----- Runs -----

  lemma StepWithinQuota(installed: Catalogue, op: Operation, userId: int)
    ensures EnabledCount(Apply(installed, op), userId) <= EnabledCount(installed, userId)
         || (op.Enable? && op.userId == userId && op.quota.Ok?
              && EnabledCount(Apply(installed, op), userId) <= op.quota.value)
    ensures op.Enable? && Refusal(installed, op).None? ==>
              && EnabledCount(Apply(installed, op), op.userId) <= op.quota.value
              && (op.userId, op.moduleId) in EnabledModules(Apply(installed, op), op.userId)
  {
    var before, after := EnabledModules(installed, userId), EnabledModules(Apply(installed, op), userId);
    if op.Enable? && op.userId == userId {
      SubsetCardinality(after, before + {(op.userId, op.moduleId)});
    } else {
      SubsetCardinality(after, before);
    }
    if op.Enable? {
      SubsetCardinality(EnabledModules(Apply(installed, op), op.userId),
                        EnabledModules(installed, op.userId) + {(op.userId, op.moduleId)});
    }
  }

  /** As long as no plan allows the user more than `limit` modules, the number enabled never
      exceeds the larger of `limit` and what it was at the start, after any run. */
  lemma {:induction false} QuotaHolds(installed: Catalogue, ops: seq<Operation>, userId: int, limit: int)
    requires forall i | 0 <= i < |ops| && ops[i].Enable? && ops[i].userId == userId && ops[i].quota.Ok? ::
               ops[i].quota.value <= limit
    ensures EnabledCount(After(installed, ops), userId) <= Max(limit, EnabledCount(installed, userId))
  {
    if ops == [] {
    } else {
      var init := Init(ops);
      assert forall i | 0 <= i < |init| :: init[i] == ops[i];
      QuotaHolds(installed, init, userId, limit);
      StepWithinQuota(After(installed, init), Last(ops), userId);
    }
  }

  /** The value given by the last accepted write to a setting; enabling and disabling play no part. */
  ghost function LastWrite(installed: Catalogue, ops: seq<Operation>, userId: int, moduleId: int,
                           key: string): Option<Json>
  {
    if ops == [] then
      if (userId, moduleId) in installed && key in installed[(userId, moduleId)].settings
      then Some(installed[(userId, moduleId)].settings[key]) else None
    else
      var op := Last(ops);
      if op.SetSetting? && op.userId == userId && op.moduleId == moduleId && op.key == key
         && Refusal(After(installed, Init(ops)), op).None?
      then Some(op.value)
      else LastWrite(installed, Init(ops), userId, moduleId, key)
  }

  ghost function Setting(installed: Catalogue, userId: int, moduleId: int, key: string): Option<Json> {
    if (userId, moduleId) in installed && key in installed[(userId, moduleId)].settings
    then Some(installed[(userId, moduleId)].settings[key]) else None
  }

  /** Settings are a last-write-wins map: after any run each one holds the value last written to
      it, also across disabling and enabling its module again. */
  lemma {:induction false} SettingsAreLastWrites(installed: Catalogue, ops: seq<Operation>, userId: int,
                                                 moduleId: int, key: string)
    ensures Setting(After(installed, ops), userId, moduleId, key) == LastWrite(installed, ops, userId, moduleId, key)
  {
    if ops == [] {
    } else {
      SettingsAreLastWrites(installed, Init(ops), userId, moduleId, key);
    }
  }

  /** Whether the last accepted switch of a module was on. */
  ghost function LastSwitch(installed: Catalogue, ops: seq<Operation>, userId: int, moduleId: int): bool {
    if ops == [] then (userId, moduleId) in EnabledModules(installed, userId) else
    var op := Last(ops);
    if !op.SetSetting? && op.userId == userId && op.moduleId == moduleId
      && Refusal(After(installed, Init(ops)), op).None?
    then op.Enable?
    else LastSwitch(installed, Init(ops), userId, moduleId)
  }

  /** After any run a module is enabled for a user if and only if it was last switched on. */
  lemma {:induction false} EnabledIffLastSwitchedOn(installed: Catalogue, ops: seq<Operation>, userId: int,
                                                    moduleId: int)
    ensures (userId, moduleId) in EnabledModules(After(installed, ops), userId) <==>
              LastSwitch(installed, ops, userId, moduleId)
  {
    if ops == [] {
    } else {
      EnabledIffLastSwitchedOn(installed, Init(ops), userId, moduleId);
    }
  }

  // ----- Together with billing -----

  /** Plans, subscriptions and modules change side by side; an enable reads the limit of its moment. */
  datatype Platform = Platform(db: Billing.Db, installed: Catalogue)

  datatype Action =
    | Bill(op: Billing.Operation)
    | EnableFor(userId: int, moduleId: int)
    | DisableFor(userId: int, moduleId: int)
    | SetFor(userId: int, moduleId: int, key: string, value: Json)

  ghost function ModuleOperation(p: Platform, action: Action): Operation
    requires !action.Bill?
  {
    match action
    case EnableFor(userId, moduleId) => Enable(userId, moduleId, Quota(p.db, userId))
    case DisableFor(userId, moduleId) => Disable(userId, moduleId)
    case SetFor(userId, moduleId, key, value) => SetSetting(userId, moduleId, key, value)
  }

  ghost function Act(p: Platform, action: Action): Platform {
    if action.Bill? then p.(db := Billing.Apply(p.db, action.op))
    else p.(installed := Apply(p.installed, ModuleOperation(p, action)))
  }

  ghost function ActAll(p: Platform, actions: seq<Action>): Platform {
    if actions == [] then p else Act(ActAll(p, Init(actions)), Last(actions))
  }

  /** The subscriptions of a user that are active. */
  ghost function ActiveOf(db: Billing.Db, userId: int): set<int> {
    set s | s in db.subscriptions
      && db.subscriptions[s].userId == userId && db.subscriptions[s].status == Billing.Active
  }

  /** The modules a user has enabled. */
  ghost function EnabledOf(installed: Catalogue, userId: int): set<int> {
    set at | at in installed && at.0 == userId && installed[at].enabled :: at.1
  }

  lemma EnabledOfCount(installed: Catalogue, userId: int)
    ensures |EnabledOf(installed, userId)| == EnabledCount(installed, userId)
  {
    var modules, at := EnabledOf(installed, userId), (moduleId: int) => (userId, moduleId);
    ImageCardinality(modules, at);
    assert Image(modules, at) == EnabledModules(installed, userId) by {
      forall k | k in EnabledModules(installed, userId) ensures k in Image(modules, at) {
        assert k.1 in modules && at(k.1) == k;
      }
    }
  }

  /** An enable, case by case: no active subscription is no permission, and neither is one without a
      plan; two of them make the query raise; and with one, of a known plan, it is accepted if and only
      if fewer modules are enabled than that plan allows, after which they are at most that many. */
  lemma EnableOutcome(p: Platform, userId: int, moduleId: int)
    ensures var outcome := Refusal(p.installed, ModuleOperation(p, EnableFor(userId, moduleId)));
            var active, after := ActiveOf(p.db, userId), Act(p, EnableFor(userId, moduleId)).installed;
            && (|active| == 0 ==> outcome == Some(PermissionDenied))
            && (|active| > 1 ==> outcome == Some(MultipleRows))
            && (forall s | active == {s} ::
                  var planId := p.db.subscriptions[s].planId;
                  if planId !in p.db.plans then outcome == Some(PermissionDenied)
                  else if |EnabledOf(p.installed, userId)| < p.db.plans[planId].maxModules then
                    outcome == None && moduleId in EnabledOf(after, userId)
                    && |EnabledOf(after, userId)| <= p.db.plans[planId].maxModules
                  else outcome == Some(Conflict))
            && (outcome.Some? ==> after == p.installed)
  {
    var active, after := ActiveOf(p.db, userId), Act(p, EnableFor(userId, moduleId)).installed;
    assert active == Billing.ActiveIds(p.db.subscriptions, userId);
    EnabledOfCount(p.installed, userId);
    EnabledOfCount(after, userId);
    StepWithinQuota(p.installed, ModuleOperation(p, EnableFor(userId, moduleId)), userId);
    if outcome: Error :| Refusal(p.installed, ModuleOperation(p, EnableFor(userId, moduleId))) == Some(outcome) {
    } else {
      assert (userId, moduleId) in after && after[(userId, moduleId)].enabled;
    }
  }

  /** Every active subscription of the user is to this plan. */
  predicate OnPlan(db: Billing.Db, userId: int, planId: int) {
    forall s | s in db.subscriptions && db.subscriptions[s].userId == userId
            && db.subscriptions[s].status == Billing.Active :: db.subscriptions[s].planId == planId
  }

  lemma {:induction false} PlanLimitFixed(p: Platform, actions: seq<Action>, planId: int)
    requires planId in p.db.plans
    ensures planId in ActAll(p, actions).db.plans
    ensures ActAll(p, actions).db.plans[planId].maxModules == p.db.plans[planId].maxModules
  {
    if actions == [] {
    } else {
      PlanLimitFixed(p, Init(actions), planId);
    }
  }

  /** Main result on limits: over any run of billing and module operations throughout which the user's
      active subscriptions, if any, are to one plan, the number of modules enabled never exceeds the
      larger of what it was at the start and what that plan allows. */
  lemma {:induction false} PlanLimitHolds(p: Platform, actions: seq<Action>, userId: int, planId: int)
    requires planId in p.db.plans
    requires forall k | 0 <= k <= |actions| :: OnPlan(ActAll(p, actions[..k]).db, userId, planId)
    ensures |EnabledOf(ActAll(p, actions).installed, userId)|
              <= Max(|EnabledOf(p.installed, userId)|, p.db.plans[planId].maxModules)
  {
    if actions == [] {
    } else {
      var init, action := Init(actions), Last(actions);
      var before := ActAll(p, init);
      assert forall k | 0 <= k <= |init| :: init[..k] == actions[..k];
      assert actions[..|actions| - 1] == init;
      PlanLimitHolds(p, init, userId, planId);
      PlanLimitFixed(p, init, planId);
      ActWithinLimit(before, action, userId, planId);
    }
  }

  lemma ActWithinLimit(p: Platform, action: Action, userId: int, planId: int)
    requires planId in p.db.plans && OnPlan(p.db, userId, planId)
    ensures |EnabledOf(Act(p, action).installed, userId)|
              <= Max(|EnabledOf(p.installed, userId)|, p.db.plans[planId].maxModules)
  {
    EnabledOfCount(p.installed, userId);
    EnabledOfCount(Act(p, action).installed, userId);
    if !action.Bill? {
      StepWithinQuota(p.installed, ModuleOperation(p, action), userId);
      if action.EnableFor? && action.userId == userId {
        QuotaOnPlan(p.db, userId, planId);
      }
    }
  }

  lemma QuotaOnPlan(db: Billing.Db, userId: int, planId: int)
    requires planId in db.plans && OnPlan(db, userId, planId)
    ensures Quota(db, userId).Ok? ==> Quota(db, userId).value == db.plans[planId].maxModules
  {
  }

  // ----- When a module operation goes through -----

  /** A disable needs the module to be installed, and a setting needs it to be enabled; what an accepted
      one does is all it does. */
  lemma OtherOutcomes(p: Platform, userId: int, moduleId: int, key: string, value: Json)
    ensures var at := (userId, moduleId);
            var disabled := Act(p, DisableFor(userId, moduleId));
            var written := Act(p, SetFor(userId, moduleId, key, value));
            && Refusal(p.installed, Disable(userId, moduleId)) == (if at in p.installed then None else Some(NotFound))
            && Refusal(p.installed, SetSetting(userId, moduleId, key, value))
                 == (if moduleId in EnabledOf(p.installed, userId) then None else Some(Conflict))
            && disabled == (if at in p.installed
                            then p.(installed := p.installed[at := Installed(false, p.installed[at].settings)]) else p)
            && written == (if moduleId in EnabledOf(p.installed, userId)
                           then p.(installed := p.installed[at :=
                                                  Installed(true, p.installed[at].settings[key := value])])
                           else p)
  {
    var at := (userId, moduleId);
    assert moduleId in EnabledOf(p.installed, userId) <==> at in p.installed && p.installed[at].enabled;
  }
}
