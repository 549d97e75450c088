/**
 * Price alerts: the `alerts` table, the commands that maintain it, and the
 * periodic cycle (`check_alerts`) that notifies users and retires alerts.
 */
module Alerts {
  import opened Wrappers
  import Seqs
  import Text
  import opened Market

  /** One row of the `alerts` table. Rows have no key of their own; duplicates are allowed. */
  datatype Alert = Alert(userId: string, symbol: string, condition: string, target: real)

  /** What a deletion matches on: user, symbol and target, but not the condition. */
  datatype AlertKey = AlertKey(userId: string, symbol: string, target: real)

  /** A row of `get_user_alerts`: the alert without its user. */
  datatype UserAlert = UserAlert(symbol: string, condition: string, target: real)

  /** A direct message sent by the cycle. */
  datatype Notice = Notice(userId: string, symbol: string, price: real, condition: string, target: real)

  /** Outcome of `fetch_user` followed by `user.send`: it returned, or one of them raised. */
  datatype Delivery = Delivered | SendRaised

  function KeyOf(a: Alert): AlertKey
  {
    AlertKey(a.userId, a.symbol, a.target)
  }

  function NoticeKey(n: Notice): AlertKey
  {
    AlertKey(n.userId, n.symbol, n.target)
  }

  function Project(a: Alert): UserAlert
  {
    UserAlert(a.symbol, a.condition, a.target)
  }

  // ---- The table's queries and deletions as functions of its rows ----

  /** `WHERE user_id = ?` */
  function OfUser(rows: seq<Alert>, userId: string): seq<Alert>
  {
    Seqs.Filter(rows, (a: Alert) => a.userId == userId)
  }

  /** `DELETE ... WHERE user_id = ?` */
  function WithoutUser(rows: seq<Alert>, userId: string): seq<Alert>
  {
    Seqs.Filter(rows, (a: Alert) => a.userId != userId)
  }

  /** `DELETE ... WHERE user_id = ? AND symbol = ? AND target = ?` */
  function WithoutKey(rows: seq<Alert>, key: AlertKey): seq<Alert>
  {
    Seqs.Filter(rows, (a: Alert) => KeyOf(a) != key)
  }

  /** The table after deleting, one after another, every key of `keys`. */
  function WithoutKeys(rows: seq<Alert>, keys: seq<AlertKey>): seq<Alert>
  {
    Seqs.Filter(rows, (a: Alert) => KeyOf(a) !in keys)
  }

  /** The user's alerts: every row of that user, with multiplicity, and nothing else. */
  lemma OfUserCount(rows: seq<Alert>, userId: string, a: Alert)
    ensures multiset(OfUser(rows, userId))[a] == if a.userId == userId then multiset(rows)[a] else 0
  {
    Seqs.FilterCount(rows, (a: Alert) => a.userId == userId, a);
  }

  /** Clearing a user deletes all of that user's rows and keeps every other row with its multiplicity. */
  lemma WithoutUserCount(rows: seq<Alert>, userId: string, a: Alert)
    ensures multiset(WithoutUser(rows, userId))[a] == if a.userId == userId then 0 else multiset(rows)[a]
  {
    Seqs.FilterCount(rows, (a: Alert) => a.userId != userId, a);
  }

  /** Deleting a key removes every row with that key, whatever its condition, and keeps the others. */
  lemma WithoutKeyCount(rows: seq<Alert>, key: AlertKey, a: Alert)
    ensures multiset(WithoutKey(rows, key))[a] == if KeyOf(a) == key then 0 else multiset(rows)[a]
  {
    Seqs.FilterCount(rows, (a: Alert) => KeyOf(a) != key, a);
  }

  /** Deleting a key shrinks the table exactly when some row carries that key. */
  lemma WithoutKeyShrinks(rows: seq<Alert>, key: AlertKey)
    ensures |WithoutKey(rows, key)| < |rows| <==> exists i :: 0 <= i < |rows| && KeyOf(rows[i]) == key
  {
    Seqs.FilterKeepsLength(rows, (a: Alert) => KeyOf(a) != key);
  }

  /** Deleting one more key after a batch is deleting the extended batch. */
  lemma WithoutKeysStep(rows: seq<Alert>, keys: seq<AlertKey>, key: AlertKey)
    ensures WithoutKey(WithoutKeys(rows, keys), key) == WithoutKeys(rows, keys + [key])
  {
    Seqs.FilterFilter(rows, (a: Alert) => KeyOf(a) !in keys, (a: Alert) => KeyOf(a) != key,
                      (a: Alert) => KeyOf(a) !in keys + [key]);
  }

  /** Deleting no key leaves the table as it is. */
  lemma WithoutNoKeys(rows: seq<Alert>)
    ensures WithoutKeys(rows, []) == rows
  {
    Seqs.FilterAll(rows, (a: Alert) => KeyOf(a) !in []);
  }

  // ---- The trigger rule and one evaluation cycle as functions ----

  /**
   * The trigger rule of the cycle: `"above"` fires on a price strictly above
   * the target, `"below"` on a price strictly below it; equality and any
   * other condition never fire.
   */
  function Fires(condition: string, current: real, target: real): (r: bool)
    ensures current == target ==> !r
    ensures r ==> condition == "above" || condition == "below"
    ensures condition == "above" ==> (r <==> current > target)
    ensures condition == "below" ==> (r <==> current < target)
  {
    (condition == "above" && current > target) || (condition == "below" && current < target)
  }

  /**
   * What processing one alert contributes to the cycle, given the outcome
   * `data` of its own 1-day history call: a notice exactly when that call did
   * not raise and was non-empty, its last close fires the rule, and the
   * direct message went out without raising.
   */
  function Evaluate(a: Alert, data: Fetch, delivery: Delivery): (r: Option<Notice>)
    ensures r.Some? ==> NoticeKey(r.value) == KeyOf(a) && r.value.condition == a.condition
    ensures r.Some? <==> HasData(data) && delivery == Delivered && Fires(a.condition, Last(data.closes), a.target)
    ensures r.Some? ==> r.value.price == Last(data.closes)
  {
    if !HasData(data) then None
    else
      var current := Last(data.closes);
      if Fires(a.condition, current, a.target) && delivery == Delivered then
        Some(Notice(a.userId, a.symbol, current, a.condition, a.target))
      else None
  }

  /** `iloc[-1]` */
  function Last(s: seq<real>): real
    requires |s| > 0
  {
    s[|s| - 1]
  }

  /** What one row adds to the notices of a scan: its notice, if any. */
  function NoticeOf(a: Alert, data: Fetch, delivery: Delivery): (r: seq<Notice>)
    ensures |r| <= 1
  {
    match Evaluate(a, data, delivery)
    case Some(x) => [x]
    case None => []
  }

  /**
   * The notices of a scan over `rows`, in row order. Every row is fetched on
   * its own: `fetch(i)` is the outcome of the 1-day history call made for row
   * `i`, and `delivery(i)` is how the message for row `i` fared.
   */
  function Notices(rows: seq<Alert>, fetch: nat -> Fetch, delivery: nat -> Delivery): (r: seq<Notice>)
    ensures |r| <= |rows|
    decreases |rows|
  {
    if rows == [] then []
    else
      var n := |rows| - 1;
      Notices(rows[..n], fetch, delivery) + NoticeOf(rows[n], fetch(n), delivery(n))
  }

  /** The `to_remove` list of a scan: the key of each notice. */
  function Marks(notices: seq<Notice>): (keys: seq<AlertKey>)
    ensures |keys| == |notices|
  {
    Seqs.Map(notices, NoticeKey)
  }

  lemma MarksAppend(a: seq<Notice>, b: seq<Notice>)
    ensures Marks(a + b) == Marks(a) + Marks(b)
  {
    assert forall i :: 0 <= i < |a + b| ==> Marks(a + b)[i] == (Marks(a) + Marks(b))[i];
  }

  /** Row `i` of the scan fired, was delivered, and carries `key`. */
  predicate RetiresAt(rows: seq<Alert>, fetch: nat -> Fetch, delivery: nat -> Delivery, key: AlertKey, i: nat)
    requires i < |rows|
  {
    KeyOf(rows[i]) == key && Evaluate(rows[i], fetch(i), delivery(i)).Some?
  }

  /** Some row of the scan fired, was delivered, and carries `key`. */
  predicate Retires(rows: seq<Alert>, fetch: nat -> Fetch, delivery: nat -> Delivery, key: AlertKey)
  {
    exists i: nat :: i < |rows| && RetiresAt(rows, fetch, delivery, key, i)
  }

  lemma RetiresStep(rows: seq<Alert>, fetch: nat -> Fetch, delivery: nat -> Delivery, key: AlertKey)
    requires rows != []
    ensures Retires(rows, fetch, delivery, key) <==>
            Retires(rows[..|rows| - 1], fetch, delivery, key) || RetiresAt(rows, fetch, delivery, key, |rows| - 1)
  {
    var n := |rows| - 1;
    var front := rows[..n];
    if Retires(front, fetch, delivery, key) {
      var i: nat :| i < |front| && RetiresAt(front, fetch, delivery, key, i);
      assert RetiresAt(rows, fetch, delivery, key, i);
    }
    if Retires(rows, fetch, delivery, key) {
      var i: nat :| i < |rows| && RetiresAt(rows, fetch, delivery, key, i);
      if i < n {
        assert RetiresAt(front, fetch, delivery, key, i);
      }
    }
  }

  /** A key is marked exactly when some row with that key produced a notice. */
  lemma {:induction false} MarkedIff(rows: seq<Alert>, fetch: nat -> Fetch, delivery: nat -> Delivery, key: AlertKey)
    ensures key in Marks(Notices(rows, fetch, delivery)) <==> Retires(rows, fetch, delivery, key)
    decreases |rows|
  {
    if rows != [] {
      var n := |rows| - 1;
      MarkedIff(rows[..n], fetch, delivery, key);
      RetiresStep(rows, fetch, delivery, key);
      var ns := Notices(rows[..n], fetch, delivery);
      var tail := NoticeOf(rows[n], fetch(n), delivery(n));
      MarksAppend(ns, tail);
      var e := Evaluate(rows[n], fetch(n), delivery(n));
      if e.Some? {
        assert tail == [e.value];
        assert Marks(tail) == [NoticeKey(e.value)];
      } else {
        assert tail == [];
      }
    }
  }

  /** The table a cycle leaves behind: the scanned rows minus every row whose key was marked. */
  function AfterCycle(rows: seq<Alert>, fetch: nat -> Fetch, delivery: nat -> Delivery): seq<Alert>
  {
    WithoutKeys(rows, Marks(Notices(rows, fetch, delivery)))
  }

  /**
   * A row survives the cycle, with all its copies, exactly when no row with
   * the same user, symbol and target both fired and was delivered; a row that
   * never fired (its own fetch empty or raising, rule not met, or a condition
   * that is neither "above" nor "below") is still deleted when a row sharing
   * its key fired.
   */
  lemma CycleRetires(rows: seq<Alert>, fetch: nat -> Fetch, delivery: nat -> Delivery, a: Alert)
    ensures multiset(AfterCycle(rows, fetch, delivery))[a] ==
            if Retires(rows, fetch, delivery, KeyOf(a)) then 0 else multiset(rows)[a]
  {
    var marks := Marks(Notices(rows, fetch, delivery));
    Seqs.FilterCount(rows, (b: Alert) => KeyOf(b) !in marks, a);
    MarkedIff(rows, fetch, delivery, KeyOf(a));
  }

  /** The surprising consequence: two alerts that differ only in condition share their fate. */
  lemma ConditionIgnoredOnRetire(rows: seq<Alert>, fetch: nat -> Fetch, delivery: nat -> Delivery, i: nat, j: nat)
    requires i < |rows| && j < |rows|
    requires KeyOf(rows[i]) == KeyOf(rows[j])
    requires Evaluate(rows[j], fetch(j), delivery(j)).Some?
    ensures rows[i] !in AfterCycle(rows, fetch, delivery)
  {
    assert RetiresAt(rows, fetch, delivery, KeyOf(rows[i]), j);
    CycleRetires(rows, fetch, delivery, rows[i]);
  }

  /**
   * A row whose own fetch has no data (empty or raising) yields no notice, so
   * it never marks its key itself; it is kept, with all its copies, when no
   * row sharing its key had data either.
   */
  lemma NoDataKept(rows: seq<Alert>, fetch: nat -> Fetch, delivery: nat -> Delivery, i: nat)
    requires i < |rows| && !HasData(fetch(i))
    ensures !RetiresAt(rows, fetch, delivery, KeyOf(rows[i]), i)
    ensures (forall j: nat :: j < |rows| && KeyOf(rows[j]) == KeyOf(rows[i]) ==> !HasData(fetch(j))) ==>
              multiset(AfterCycle(rows, fetch, delivery))[rows[i]] == multiset(rows)[rows[i]]
  {
    CycleRetires(rows, fetch, delivery, rows[i]);
  }

  /**
   * Fetches are per row, so one failing fetch does not protect an alert: its
   * twin with the opposite condition fires on its own fetch and the shared
   * key deletes both.
   */
  lemma FailedFetchStillRetired(fetch: nat -> Fetch, delivery: nat -> Delivery)
    requires fetch(0) == Raised
    requires fetch(1) == Closes([90.0])
    requires delivery(1) == Delivered
    ensures AfterCycle([Alert("U1", "XYZ", "above", 100.0), Alert("U1", "XYZ", "below", 100.0)], fetch, delivery) == []
  {
    var rows := [Alert("U1", "XYZ", "above", 100.0), Alert("U1", "XYZ", "below", 100.0)];
    assert RetiresAt(rows, fetch, delivery, KeyOf(rows[1]), 1);
    CycleRetires(rows, fetch, delivery, rows[0]);
    CycleRetires(rows, fetch, delivery, rows[1]);
    var after := AfterCycle(rows, fetch, delivery);
    assert forall x :: x in after ==> x in rows;
  }

  /** The end-to-end scenario: an "above 100" alert at a close of 105.32 is notified and retired. */
  lemma AboveScenario(fetch: nat -> Fetch, delivery: nat -> Delivery)
    requires fetch(0) == Closes([105.32])
    requires delivery(0) == Delivered
    ensures Notices([Alert("U1", "XYZ", "above", 100.0)], fetch, delivery) ==
            [Notice("U1", "XYZ", 105.32, "above", 100.0)]
    ensures AfterCycle([Alert("U1", "XYZ", "above", 100.0)], fetch, delivery) == []
  {
    var rows := [Alert("U1", "XYZ", "above", 100.0)];
    assert rows[..0] == [];
    CycleRetires(rows, fetch, delivery, rows[0]);
    assert RetiresAt(rows, fetch, delivery, KeyOf(rows[0]), 0);
    assert multiset(AfterCycle(rows, fetch, delivery))[rows[0]] == 0;
    assert forall x :: x in AfterCycle(rows, fetch, delivery) ==> x in rows;
  }

  // ---- The table and its commands ----

  /** Reply kinds of the `alert` command. */
  datatype SetReply = AlertSet | BadCondition | NotValidated

  /** Reply kinds of `alert_list`. */
  datatype ListReply = NoAlerts | Listing(alerts: seq<UserAlert>)

  /** Reply kinds of `alert_remove` and `clear_alerts`. */
  datatype DropReply = Dropped | NothingToDrop

  /** The `alerts` table, rows in insertion order. */
  class AlertTable {
    var rows: seq<Alert>

    constructor ()
      ensures rows == []
    {
      rows := [];
    }

    /** `add_alert`: one more row, no de-duplication. */
    method AddAlert(userId: string, symbol: string, condition: string, target: real)
      modifies this
      ensures rows == old(rows) + [Alert(userId, symbol, condition, target)]
    {
      rows := rows + [Alert(userId, symbol, condition, target)];
    }

    /** `get_user_alerts`: the user's rows without the user column. */
    method GetUserAlerts(userId: string) returns (result: seq<UserAlert>)
      ensures result == Seqs.Map(OfUser(rows, userId), Project)
    {
      result := Seqs.Map(OfUser(rows, userId), Project);
    }

    /** `get_all_alerts` */
    method GetAllAlerts() returns (result: seq<Alert>)
      ensures result == rows
    {
      result := rows;
    }

    /** `remove_alert`: delete by (user, symbol, target); report whether any row went. */
    method RemoveAlert(userId: string, symbol: string, target: real) returns (deleted: bool)
      modifies this
      ensures rows == WithoutKey(old(rows), AlertKey(userId, symbol, target))
      ensures deleted <==> exists i :: 0 <= i < |old(rows)| && KeyOf(old(rows)[i]) == AlertKey(userId, symbol, target)
    {
      var before := |rows|;
      WithoutKeyShrinks(rows, AlertKey(userId, symbol, target));
      rows := WithoutKey(rows, AlertKey(userId, symbol, target));
      deleted := |rows| < before;
    }

    /** `clear_alerts` */
    method ClearAlerts(userId: string)
      modifies this
      ensures rows == WithoutUser(old(rows), userId)
    {
      rows := WithoutUser(rows, userId);
    }

    /** `delete_alert_entry`: the same keyed delete, without a count. */
    method DeleteAlertEntry(key: AlertKey)
      modifies this
      ensures rows == WithoutKey(old(rows), key)
    {
      rows := WithoutKey(rows, key);
    }

    /**
     * The `alert` command: lower-case the condition and reject anything but
     * "above"/"below"; reject a symbol whose 1-day history raises or is empty;
     * otherwise store the alert with the symbol upper-cased.
     */
    method SetAlert(userId: string, symbol: string, condition: string, target: real, history: History)
      returns (reply: SetReply)
      modifies this
      ensures reply == BadCondition <==> Text.Lower(condition) != "above" && Text.Lower(condition) != "below"
      ensures reply == NotValidated <==> reply != BadCondition && !HasData(history(symbol, "1d"))
      ensures reply == AlertSet ==> rows == old(rows) + [Alert(userId, Text.Upper(symbol), Text.Lower(condition), target)]
      ensures reply != AlertSet ==> rows == old(rows)
    {
      var cond := Text.Lower(condition);
      if cond != "above" && cond != "below" {
        return BadCondition;
      }
      var data := history(symbol, "1d");
      if !HasData(data) {
        return NotValidated;
      }
      AddAlert(userId, Text.Upper(symbol), cond, target);
      reply := AlertSet;
    }

    /** `alert_list` */
    method ListAlerts(userId: string) returns (reply: ListReply)
      ensures reply == NoAlerts <==> OfUser(rows, userId) == []
      ensures reply.Listing? ==> reply.alerts == Seqs.Map(OfUser(rows, userId), Project)
    {
      var mine := GetUserAlerts(userId);
      if mine == [] {
        return NoAlerts;
      }
      reply := Listing(mine);
    }

    /** `alert_remove`: the symbol is upper-cased before the keyed delete. */
    method RemoveCommand(userId: string, symbol: string, target: real) returns (reply: DropReply)
      modifies this
      ensures rows == WithoutKey(old(rows), AlertKey(userId, Text.Upper(symbol), target))
      ensures reply == Dropped <==> |rows| < |old(rows)|
    {
      var ok := RemoveAlert(userId, Text.Upper(symbol), target);
      WithoutKeyShrinks(old(rows), AlertKey(userId, Text.Upper(symbol), target));
      reply := if ok then Dropped else NothingToDrop;
    }

    /** `clear_alerts` command: nothing to do for a user without alerts. */
    method ClearCommand(userId: string) returns (reply: DropReply)
      modifies this
      ensures reply == NothingToDrop <==> OfUser(old(rows), userId) == []
      ensures rows == WithoutUser(old(rows), userId)
    {
      var mine := GetUserAlerts(userId);
      if mine == [] {
        WithoutUserNoop(rows, userId);
        return NothingToDrop;
      }
      ClearAlerts(userId);
      reply := Dropped;
    }

    /**
     * `check_alerts`: scan every row, then delete the keys the scan
     * collected; deletions wait until the whole table has been scanned.
     */
    method CheckAlerts(fetch: nat -> Fetch, delivery: nat -> Delivery) returns (sent: seq<Notice>)
      modifies this
      ensures sent == Notices(old(rows), fetch, delivery)
      ensures rows == AfterCycle(old(rows), fetch, delivery)
    {
      var all := GetAllAlerts();
      var toRemove;
      sent, toRemove := ScanAlerts(all, fetch, delivery);
      WithoutNoKeys(all);
      var j := 0;
      while j < |toRemove|
        invariant 0 <= j <= |toRemove|
        invariant rows == WithoutKeys(all, toRemove[..j])
      {
        WithoutKeysStep(all, toRemove[..j], toRemove[j]);
        assert toRemove[..j + 1] == toRemove[..j] + [toRemove[j]];
        DeleteAlertEntry(toRemove[j]);
        j := j + 1;
      }
      assert toRemove[..|toRemove|] == toRemove;
    }
  }

  /**
   * The scanning loop of `check_alerts`: for each row, skip it when its
   * 1-day history raises or is empty; otherwise, when its last close fires
   * the rule and the message goes out without raising, record the notice and
   * append the row's key to `to_remove`.
   */
  method ScanAlerts(all: seq<Alert>, fetch: nat -> Fetch, delivery: nat -> Delivery)
    returns (sent: seq<Notice>, toRemove: seq<AlertKey>)
    ensures sent == Notices(all, fetch, delivery)
    ensures toRemove == Marks(sent)
  {
    toRemove := [];
    sent := [];
    var i := 0;
    while i < |all|
      invariant 0 <= i <= |all|
      invariant sent == Notices(all[..i], fetch, delivery)
      invariant toRemove == Marks(sent)
    {
      assert all[..i + 1][..i] == all[..i];
      ghost var before := sent;
      var a := all[i];
      var data := fetch(i);
      if HasData(data) {
        var current := data.closes[|data.closes| - 1];
        if Fires(a.condition, current, a.target) {
          var outcome := delivery(i);
          if outcome == Delivered {
            var notice := Notice(a.userId, a.symbol, current, a.condition, a.target);
            MarksAppend(sent, [notice]);
            toRemove := toRemove + [KeyOf(a)];
            sent := sent + [notice];
          }
        }
      }
      assert sent == before + NoticeOf(a, fetch(i), delivery(i));
      i := i + 1;
    }
    assert all[..|all|] == all;
  }

  lemma WithoutUserNoop(rows: seq<Alert>, userId: string)
    requires Seqs.Map(OfUser(rows, userId), Project) == []
    ensures WithoutUser(rows, userId) == rows
  {
    Seqs.FilterAll(rows, (a: Alert) => a.userId != userId);
  }
}
