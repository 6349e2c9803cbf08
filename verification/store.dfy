/**
 * The four tables the services query, as one object whose fields the services update, and the
 * ownership relation every service enforces: an asset belongs to its `user_id`, and a log or a
 * schedule belongs to whoever owns the asset named by its `asset_id` (the services' JOIN on assets).
 */
module Store {
  import opened Records
  import opened Sequences

  /** `SELECT 1 FROM assets WHERE id = assetId AND user_id = userId` finds a row. */
  predicate OwnsAsset(assets: seq<Asset>, assetId: int, userId: int) {
    exists a :: a in assets && a.id == assetId && a.userId == userId
  }

  /** `SELECT 1 FROM maintenance_logs ml JOIN assets a ON ml.asset_id = a.id WHERE ml.id = logId AND a.user_id = userId` finds a row. */
  predicate OwnsLog(assets: seq<Asset>, logs: seq<MaintenanceLog>, logId: int, userId: int) {
    exists l :: l in logs && l.id == logId && OwnsAsset(assets, l.assetId, userId)
  }

  /** The same JOIN for `maintenance_schedules`. */
  predicate OwnsSchedule(assets: seq<Asset>, schedules: seq<MaintenanceSchedule>, scheduleId: int, userId: int) {
    exists s :: s in schedules && s.id == scheduleId && OwnsAsset(assets, s.assetId, userId)
  }

  function UserKey(u: User): int { u.id }
  function UsernameKey(u: User): string { u.username }
  function EmailKey(u: User): string { u.email }
  function AssetKey(a: Asset): int { a.id }
  function LogKey(l: MaintenanceLog): int { l.id }
  function ScheduleKey(s: MaintenanceSchedule): int { s.id }

  /** No two rows share a key. */
  ghost predicate UniqueKeys<T, K>(s: seq<T>, key: T -> K) {
    forall i, j :: 0 <= i < j < |s| ==> key(s[i]) != key(s[j])
  }

  /** A SERIAL primary key: unique, and every key lies in [1, next). */
  ghost predicate Serial<T>(s: seq<T>, key: T -> int, next: int) {
    && UniqueKeys(s, key)
    && forall x :: x in s ==> 1 <= key(x) < next
  }

  /** Under a unique key, distinct rows have distinct keys. */
  lemma KeysDiffer<T, K>(s: seq<T>, key: T -> K, x: T, y: T)
    requires UniqueKeys(s, key)
    requires x in s && y in s && x != y
    ensures key(x) != key(y)
  {
    var i :| 0 <= i < |s| && s[i] == x;
    var j :| 0 <= j < |s| && s[j] == y;
    if i < j {
      assert key(s[i]) != key(s[j]);
    } else {
      assert key(s[j]) != key(s[i]);
    }
  }

  /** Deleting rows keeps keys unique. */
  lemma {:induction false} FilterKeepsUnique<T(!new), K>(s: seq<T>, p: T -> bool, key: T -> K)
    requires UniqueKeys(s, key)
    ensures UniqueKeys(Filter(s, p), key)
  {
    if s != [] {
      var tail := s[1..];
      assert UniqueKeys(tail, key) by {
        forall i, j | 0 <= i < j < |tail| ensures key(tail[i]) != key(tail[j]) {
          assert tail[i] == s[i + 1] && tail[j] == s[j + 1];
        }
      }
      FilterKeepsUnique(tail, p, key);
      if p(s[0]) {
        var r := Filter(s, p);
        var rest := Filter(tail, p);
        assert r == [s[0]] + rest;
        forall i, j | 0 <= i < j < |r| ensures key(r[i]) != key(r[j]) {
          if i == 0 {
            assert r[j] == rest[j - 1] && r[j] in tail;
            var k :| 0 <= k < |tail| && tail[k] == r[j];
            assert s[k + 1] == r[j];
          } else {
            assert r[i] == rest[i - 1] && r[j] == rest[j - 1];
          }
        }
      }
    }
  }

  lemma FilterKeepsSerial<T(!new)>(s: seq<T>, p: T -> bool, key: T -> int, next: int)
    requires Serial(s, key, next)
    ensures Serial(Filter(s, p), key, next)
  {
    FilterKeepsUnique(s, p, key);
  }

  /** Updating rows without touching their key keeps the key a SERIAL key. */
  lemma MapWhereKeepsSerial<T>(s: seq<T>, p: T -> bool, f: T -> T, key: T -> int, next: int)
    requires Serial(s, key, next)
    requires forall x :: key(f(x)) == key(x)
    ensures Serial(MapWhere(s, p, f), key, next)
  {
    var r := MapWhere(s, p, f);
    forall i | 0 <= i < |r| ensures key(r[i]) == key(s[i]) {
      if p(s[i]) {
        assert key(f(s[i])) == key(s[i]);
      }
    }
  }

  /**
   * An UPDATE that matches at most one row keeps a key unique when the updated row's new key
   * differs from every other row's key.
   */
  lemma MapWhereKeepsUnique<T, K>(s: seq<T>, p: T -> bool, f: T -> T, key: T -> K)
    requires UniqueKeys(s, key)
    requires forall i, j :: 0 <= i < |s| && 0 <= j < |s| && i != j && p(s[i]) ==> !p(s[j]) && key(f(s[i])) != key(s[j])
    ensures UniqueKeys(MapWhere(s, p, f), key)
  {
    var r := MapWhere(s, p, f);
    forall i, j | 0 <= i < j < |r| ensures key(r[i]) != key(r[j]) {
      if p(s[i]) {
        assert !p(s[j]) && key(f(s[i])) != key(s[j]);
      } else if p(s[j]) {
        assert key(f(s[j])) != key(s[i]);
      } else {
        assert key(s[i]) != key(s[j]);
      }
    }
  }

  /** Appending a row under the next SERIAL value keeps the key a SERIAL key, one further on. */
  lemma AppendKeepsSerial<T>(s: seq<T>, x: T, key: T -> int, next: int)
    requires Serial(s, key, next) && 1 <= next && key(x) == next
    ensures Serial(s + [x], key, next + 1)
  {
    var r := s + [x];
    forall i, j | 0 <= i < j < |r| ensures key(r[i]) != key(r[j]) {
      assert r[i] in s;
      if j < |s| {
        assert r[i] == s[i] && r[j] == s[j];
      }
    }
  }

  /** Appending a row whose key no row has keeps the key unique. */
  lemma AppendKeepsUnique<T, K>(s: seq<T>, x: T, key: T -> K)
    requires UniqueKeys(s, key)
    requires forall y :: y in s ==> key(y) != key(x)
    ensures UniqueKeys(s + [x], key)
  {
    var r := s + [x];
    forall i, j | 0 <= i < j < |r| ensures key(r[i]) != key(r[j]) {
      assert r[i] == s[i];
      if j == |s| {
        assert s[i] in s;
      } else {
        assert r[j] == s[j];
      }
    }
  }

  /** A DELETE whose WHERE can only match the row with key `k` removes at most one row. */
  lemma {:induction false} FilterRemovesAtMostOne<T(!new), K>(s: seq<T>, p: T -> bool, key: T -> K, k: K)
    requires UniqueKeys(s, key)
    requires forall x :: x in s && !p(x) ==> key(x) == k
    ensures |Filter(s, p)| >= |s| - 1
  {
    if s != [] {
      var tail := s[1..];
      assert UniqueKeys(tail, key) by {
        forall i, j | 0 <= i < j < |tail| ensures key(tail[i]) != key(tail[j]) {
          assert tail[i] == s[i + 1] && tail[j] == s[j + 1];
        }
      }
      if p(s[0]) {
        FilterRemovesAtMostOne(tail, p, key, k);
      } else {
        forall x | x in tail ensures p(x) {
          var m :| 0 <= m < |tail| && tail[m] == x;
          assert key(s[0]) != key(s[m + 1]);
        }
        FilterKeepsAll(tail, p);
      }
    }
  }

  /** The database: one sequence per table, in insertion order, and the SERIAL counters. */
  class Database {
    var users: seq<User>
    var assets: seq<Asset>
    var logs: seq<MaintenanceLog>
    var schedules: seq<MaintenanceSchedule>
    var nextUserId: int
    var nextAssetId: int
    var nextLogId: int
    var nextScheduleId: int

    /** Primary keys are SERIAL; usernames and emails are unique among users. */
    ghost predicate Valid()
      reads this
    {
      && 1 <= nextUserId && 1 <= nextAssetId && 1 <= nextLogId && 1 <= nextScheduleId
      && Serial(users, UserKey, nextUserId)
      && UniqueKeys(users, UsernameKey)
      && UniqueKeys(users, EmailKey)
      && Serial(assets, AssetKey, nextAssetId)
      && Serial(logs, LogKey, nextLogId)
      && Serial(schedules, ScheduleKey, nextScheduleId)
    }

    /** A freshly migrated, empty database. */
    constructor ()
      ensures Valid()
      ensures users == [] && assets == [] && logs == [] && schedules == []
    {
      users, assets, logs, schedules := [], [], [], [];
      nextUserId, nextAssetId, nextLogId, nextScheduleId := 1, 1, 1, 1;
    }
  }
}
